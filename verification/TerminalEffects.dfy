/** What the bytes of single controls and control sequences do to the model, cell by cell
    and number by number. */
module TerminalEffects {
  import opened Bytes
  import opened Utf8
  import opened Terminal
  import opened TerminalInvariants
  import opened ControlSequences
  import opened Frame
  import opened FrameRoundTrip

  function Max(a: int, b: int): int {
    if a < b then b else a
  }

  // ---- Scrolling ----

  /** The retained lines are the newest lines of the log, at most HIST_MAX of them. */
  predicate Newest(p: Past) {
    && |p.lines| <= HIST_MAX && |p.lines| <= |p.log| && p.lines == p.log[|p.log| - |p.lines|..]
    && p.total == |p.log|
  }

  /** A line feed on the bottom margin: the line on the top margin is the newest line of the
      history, the lines below it move up by one, and a blank one enters. */
  ghost predicate ScrolledUp(s: State, t: State)
    requires Shape(s) && Shape(t) && t.cfg == s.cfg && s.top < s.cfg.rows && s.bot < s.cfg.rows
  {
    && t == s.(grid := t.grid, past := t.past) && Newest(t.past)
    && t.past.log == s.past.log + [s.grid[s.top]] && t.past.clears == s.past.clears
    && |t.past.lines| == Min(HIST_MAX, |s.past.lines| + 1)
    && t.past.lines[|t.past.lines| - 1] == s.grid[s.top]
    && (forall y {:trigger t.grid[y]} | 0 <= y < s.cfg.rows :: t.grid[y] ==
          if y == s.bot then BlankLine(s.cfg.cols) else if s.top <= y < s.bot then s.grid[y + 1] else s.grid[y])
  }

  /** What a line feed does, on and off the bottom margin. */
  lemma LineFeedScrolls(s: State)
    requires Shape(s) && Newest(s.past) && !s.panicked
    ensures var t := LineFeed(s);
      if s.cy != s.bot then t == s.(cy := Min(s.cy + 1, s.cfg.rows - 1))
      else if s.top < s.cfg.rows then ScrolledUp(s, t)
      else t == s.(panicked := true)
  {
    if s.cy == s.bot && s.top < s.cfg.rows {
      NewestLine(s);
      hide ScrollUp, AppendHistory, Newest;
    }
  }

  /** The history after one more line. */
  lemma NewestLine(s: State)
    requires Shape(s) && Newest(s.past) && s.cy == s.bot && s.top < s.cfg.rows
    ensures var p := LineFeed(s).past;
      && Newest(p) && p.log == s.past.log + [s.grid[s.top]] && p.clears == s.past.clears
      && |p.lines| == Min(HIST_MAX, |s.past.lines| + 1) && p.lines[|p.lines| - 1] == s.grid[s.top]
  {
    AppendHistorySuffix(s.past.log, s.past.lines, s.grid[s.top]);
    hide AppendHistory;
  }

  /** A reverse index: on the top margin the lines move down by one and a blank one enters;
      the line on the bottom margin is gone, and no history is written. */
  lemma ReverseIndexScrolls(s: State)
    requires Shape(s) && !s.panicked
    ensures var t := ReverseIndex(s);
      if s.cy != s.top then t == s.(cy := Max(s.cy - 1, 0))
      else if s.bot >= s.cfg.rows then t == s.(panicked := true)
      else
        && t == s.(grid := t.grid)
        && forall y {:trigger t.grid[y]} | 0 <= y < s.cfg.rows :: t.grid[y] ==
             if y == s.top then BlankLine(s.cfg.cols) else if s.top < y <= s.bot then s.grid[y - 1] else s.grid[y]
  {
    hide ScrollDown;
  }

  // ---- Single bytes and two-byte escapes ----

  lemma RunEscape(s: State, c: Byte, rest: seq<Byte>)
    requires Ready(s) && c != 0x5b && c != 0x5d
    ensures Shape(EscapeByte(InState(s, Escape), c)) && ParmOk(EscapeByte(InState(s, Escape), c))
    ensures Run(s, [ESC, c] + rest) == Run(EscapeByte(InState(s, Escape), c), rest)
  {
    var e := InState(s, Escape);
    SameShape(s, e);
    hide Shape, Run, EscapeByte;
    assert [ESC, c] + rest == [ESC] + ([c] + rest);
    RunControl(s, ESC, [c] + rest);
    RunControl(e, c, rest);
  }

  /** IND is a line feed. */
  lemma RunIndex(s: State, rest: seq<Byte>)
    requires Ready(s)
    ensures Run(s, [ESC, 0x44] + rest) == Run(LineFeed(s), rest)
  {
    RunEscape(s, 0x44, rest);
    hide Run, LineFeed;
    assert InState(InState(s, Escape), Ground) == s;
  }

  /** LF is a line feed that drops a pending wrap, unless an index goes out of range. */
  lemma RunLineFeed(s: State, rest: seq<Byte>)
    requires Ready(s)
    ensures if LineFeed(s).panicked then Run(s, [0x0a] + rest).panicked
            else Ready(LineFeed(s).(wrap := false)) && Run(s, [0x0a] + rest) == Run(LineFeed(s).(wrap := false), rest)
  {
    LineFeedKeepsWrap(s);
    var t := ControlByte(s, 0x0a);
    assert t == if LineFeed(s).panicked then LineFeed(s) else LineFeed(s).(wrap := false);
    hide LineFeed, Run, ControlByte;
    RunControl(s, 0x0a, rest);
    if t.panicked {
      GonePanicked(t, rest);
    }
  }

  /** The cursor at the start of its line, with no wrap pending. */
  function Returned(s: State): State {
    s.(cx := 0, wrap := false)
  }

  lemma ReturnSteps(s: State)
    requires Ready(s)
    ensures var u := Returned(s);
      && Ready(u) && ControlByte(s, 0x0d) == u && ControlByte(u, 0x0a) == LineFeed(u)
      && (if u.cy == u.bot && u.top >= u.cfg.rows then LineFeed(u).panicked else Ready(LineFeed(u)))
  {
    var u := Returned(s);
    MovedShape(s, u);
    LineFeedReady(u);
    hide LineFeed;
  }

  /** CR LF: to the start of the line, then a line feed. */
  lemma RunReturn(s: State, rest: seq<Byte>)
    requires Ready(s)
    ensures Ready(Returned(s)) && Run(s, NEWLINE + rest) == Run(LineFeed(Returned(s)), rest)
  {
    ReturnSteps(s);
    hide Shape, Run, LineFeed, ControlByte, Returned;
    assert NEWLINE + rest == [0x0d] + ([0x0a] + rest);
    RunControl(s, 0x0d, [0x0a] + rest);
    RunControl(Returned(s), 0x0a, rest);
  }

  lemma NextLineEscape(s: State)
    requires Ready(s) && !s.wrap
    ensures Shape(InState(s, Escape)) && ParmOk(InState(s, Escape)) && Ready(Returned(s))
    ensures EscapeByte(InState(s, Escape), 0x45) == LineFeed(Returned(s))
  {
    ReturnSteps(s);
    SameShape(s, InState(s, Escape));
    assert InState(InState(s, Escape), Ground) == s;
    hide LineFeed;
  }

  /** NEL is CR LF, except that it leaves a pending wrap pending. */
  lemma RunNextLine(s: State, rest: seq<Byte>)
    requires Ready(s) && !s.wrap
    ensures Run(s, [ESC, 0x45] + rest) == Run(s, NEWLINE + rest)
  {
    NextLineEscape(s);
    hide Ready, Run, LineFeed, EscapeByte, InState, Returned;
    RunEscape(s, 0x45, rest);
    RunReturn(s, rest);
  }

  lemma LineFeedKeepsWrap(s: State)
    requires Shape(s)
    ensures LineFeed(s).wrap == s.wrap && LineFeed(s).input == s.input
  {
  }

  /** RI is the reverse index. */
  lemma RunReverseIndex(s: State, rest: seq<Byte>)
    requires Ready(s)
    ensures Run(s, [ESC, 0x4d] + rest) == Run(ReverseIndex(s), rest)
  {
    RunEscape(s, 0x4d, rest);
    hide Run, ReverseIndex;
    assert InState(InState(s, Escape), Ground) == s;
  }

  /** Any other two-byte escape does nothing; ESC P is one of them, so the string behind it is
      drawn as text. */
  lemma RunOtherEscape(s: State, c: Byte, rest: seq<Byte>)
    requires Ready(s) && c !in {0x5b, 0x5d, 0x37, 0x38, 0x44, 0x45, 0x4d}
    ensures Run(s, [ESC, c] + rest) == Run(s, rest)
  {
    RunEscape(s, c, rest);
    hide Run;
    assert InState(InState(s, Escape), Ground) == s;
  }

  lemma {:induction false} RunOscBody(s: State, body: seq<Byte>, rest: seq<Byte>)
    requires Shape(s) && ParmOk(s) && !s.panicked && s.input.parser == Osc
    requires forall i | 0 <= i < |body| :: body[i] != 0x07 && body[i] != ESC
    ensures Run(s, body + rest) == Run(s, rest)
    decreases |body|
  {
    hide Run, Shape;
    if body == [] {
      assert body + rest == rest;
    } else {
      assert body + rest == [body[0]] + (body[1..] + rest);
      RunControl(s, body[0], body[1..] + rest);
      RunOscBody(s, body[1..], rest);
    }
  }

  lemma OscSteps(s: State)
    requires Ready(s)
    ensures var e, o, x := InState(s, Escape), InState(s, Osc), InState(s, OscEscape);
      && Shape(e) && ParmOk(e) && Shape(o) && ParmOk(o) && Shape(x) && ParmOk(x)
      && ControlByte(s, ESC) == e && ControlByte(e, 0x5d) == o && ControlByte(o, 0x07) == s
      && ControlByte(o, ESC) == x && ControlByte(x, 0x5c) == s
  {
    SameShape(s, InState(s, Escape));
    SameShape(s, InState(s, Osc));
    SameShape(s, InState(s, OscEscape));
    hide Shape;
    assert InState(InState(s, Osc), Ground) == s && InState(InState(s, OscEscape), Ground) == s;
  }

  lemma OscStarts(s: State, tail: seq<Byte>)
    requires Ready(s) && Shape(InState(s, Osc)) && ParmOk(InState(s, Osc))
    ensures Run(s, [ESC, 0x5d] + tail) == Run(InState(s, Osc), tail)
  {
    OscSteps(s);
    hide Run, Shape, ParmOk, ControlByte;
    assert [ESC, 0x5d] + tail == [ESC] + ([0x5d] + tail);
    RunControl(s, ESC, [0x5d] + tail);
    RunControl(InState(s, Escape), 0x5d, tail);
  }

  function OscEnd(bell: bool): seq<Byte> {
    if bell then [0x07] else [ESC, 0x5c]
  }

  lemma OscEnds(s: State, bell: bool, rest: seq<Byte>)
    requires Ready(s) && Shape(InState(s, Osc)) && ParmOk(InState(s, Osc))
    ensures Run(InState(s, Osc), OscEnd(bell) + rest) == Run(s, rest)
  {
    OscSteps(s);
    hide Run, Shape, ParmOk, ControlByte;
    if bell {
      RunControl(InState(s, Osc), 0x07, rest);
    } else {
      assert OscEnd(bell) + rest == [ESC] + ([0x5c] + rest);
      RunControl(InState(s, Osc), ESC, [0x5c] + rest);
      RunControl(InState(s, OscEscape), 0x5c, rest);
    }
  }

  /** An OSC string, ended by BEL or by ESC \, does nothing at all. */
  lemma RunOsc(s: State, body: seq<Byte>, bell: bool, rest: seq<Byte>)
    requires Ready(s) && forall i | 0 <= i < |body| :: body[i] != 0x07 && body[i] != ESC
    ensures Run(s, [ESC, 0x5d] + (body + (OscEnd(bell) + rest))) == Run(s, rest)
  {
    OscSteps(s);
    hide Run, Shape, ParmOk, ControlByte, OscEnd;
    OscStarts(s, body + (OscEnd(bell) + rest));
    RunOscBody(InState(s, Osc), body, OscEnd(bell) + rest);
    OscEnds(s, bell, rest);
  }

  /** The same state, or an index out of range in both. */
  ghost predicate SameOrGone(t: State, u: State) {
    t == u || (t.panicked && u.panicked)
  }

  /** A wrap that is pending when a rune comes is CR LF in front of it; so is a rune that does
      not fit, if the screen has room for it at all. */
  lemma WrapIsNewline(s: State, r: Rune, rest: seq<Byte>)
    requires Ready(s) && Drawable(s.cfg.width, r)
    requires s.wrap || s.cfg.width(r) <= s.cfg.cols < s.cx + s.cfg.width(r)
    ensures SameOrGone(Run(s, Encode(r) + rest), Run(s, NEWLINE + (Encode(r) + rest)))
  {
    var u := Returned(s);
    ReturnSteps(s);
    NewlineFirst(s, r);
    NotPanicked(s);
    hide Ready, Run, Encode, Draw, LineFeed, ControlByte;
    RunReturn(s, Encode(r) + rest);
    RunDraw(s, r, rest);
    if u.top < s.cfg.rows || u.cy != u.bot {
      LineFeedKeepsCfg(u);
      RunDraw(LineFeed(u), r, rest);
    } else {
      GonePanicked(LineFeed(u), Encode(r) + rest);
      GonePanicked(Draw(s, r), rest);
    }
  }

  lemma LineFeedKeepsCfg(u: State)
    requires Shape(u)
    ensures LineFeed(u).cfg == u.cfg
  {
  }

  /** A rune that takes no column does nothing; a pending wrap stays pending. */
  lemma ZeroWidthIgnored(s: State, r: Rune, rest: seq<Byte>)
    requires Ready(s) && 0x20 <= r && IsScalar(r) && s.cfg.width(r) == 0
    ensures Run(s, Encode(r) + rest) == Run(s, rest)
  {
    NotPanicked(s);
    hide Run, Encode, Shape;
    RunDraw(s, r, rest);
    assert Draw(s, r) == s;
  }

  lemma GonePanicked(s: State, p: seq<Byte>)
    requires Shape(s) && ParmOk(s) && s.panicked
    ensures Run(s, p) == s
  {
  }

  lemma LineFeedReady(u: State)
    requires Ready(u) && !u.wrap
    ensures ControlByte(u, 0x0a) == LineFeed(u) && Shape(LineFeed(u)) && ParmOk(LineFeed(u))
    ensures if u.cy == u.bot && u.top >= u.cfg.rows then LineFeed(u).panicked else Ready(LineFeed(u))
    ensures LineFeed(u).cfg == u.cfg
  {
  }

  lemma LineFeedOfWrapped(s: State)
    requires Shape(s)
    ensures Shape(s.(wrap := false)) && LineFeed(s.(wrap := false)) == LineFeed(s).(wrap := false)
    ensures LineFeed(s).panicked <==> s.panicked || (s.cy == s.bot && s.top >= s.cfg.rows)
    ensures LineFeed(s).cx == s.cx && LineFeed(s).cfg == s.cfg
  {
    hide ScrollUp, Push;
  }

  lemma NewlineFirst(s: State, r: Rune)
    requires Ready(s) && s.cfg.width(r) >= 1
    requires s.wrap || s.cfg.width(r) <= s.cfg.cols < s.cx + s.cfg.width(r)
    ensures var u := s.(cx := 0, wrap := false);
      && Shape(u) && (u.cy != u.bot || u.top < s.cfg.rows ==> Draw(s, r) == Draw(LineFeed(u), r))
      && (u.cy == u.bot && u.top >= s.cfg.rows ==> Draw(s, r).panicked)
  {
    var v := s.(cx := 0);
    LineFeedKeepsWrap(v);
    LineFeedOfWrapped(v);
    LineFeedOfWrapped(v.(wrap := false));
    hide LineFeed, PutCell, Shape;
    assert s.wrap ==> TakeWrap(s) == if LineFeed(v).panicked then LineFeed(v) else LineFeed(v.(wrap := false));
    assert !s.wrap ==> TakeWrap(s) == s && v == v.(wrap := false);
  }

  lemma RunSingle(s: State, c: Byte, rest: seq<Byte>)
    requires Ready(s) && c < 0x20
    ensures Run(s, [c] + rest) == Run(GroundControl(s, c), rest)
  {
    hide Run, GroundControl;
    RunControl(s, c, rest);
  }

  /** BS goes one column back; HT goes to the next column that is a multiple of eight, or to
      the last one; other controls do nothing. Only BS drops a pending wrap. */
  lemma SingleControls(s: State, c: Byte)
    requires Ready(s) && c < 0x20 && c != ESC && c != 0x0d && c != 0x0a
    ensures var t := GroundControl(s, c);
      && (c == 0x08 ==> t == s.(cx := Max(s.cx - 1, 0), wrap := false))
      && (c == 0x09 ==> t == s.(cx := t.cx) && NextStop(s.cx, t.cx, s.cfg.cols))
      && (c != 0x08 && c != 0x09 ==> t == s)
  {
  }

  /** `x` is the first tab stop behind `from`, or the last column if there is none. */
  predicate NextStop(from: nat, x: nat, cols: nat) {
    && ((x % 8 == 0 && from < x < cols) || x + 1 == cols)
    && forall k | from < k < x && k < cols :: k % 8 != 0
  }

  // ---- The cursor ----

  /** The first number, with missing and zero standing for 1. */
  function Count(ns: seq<nat>, i: nat): (n: nat)
    ensures n >= 1
  {
    if i < |ns| && ns[i] > 0 then ns[i] else 1
  }

  /** Where a movement with the numbers `n` and `m` leads. */
  ghost predicate Moves(s: State, t: State, final: Byte, n: nat, m: nat) {
    && t == s.(cx := t.cx, cy := t.cy, wrap := false, input := t.input)
    && (final in {0x43, 0x44, 0x47} ==> t.cy == s.cy) && (final in {0x41, 0x42, 0x64} ==> t.cx == s.cx)
    && (final == 0x41 ==> t.cy == Max(s.cy - n, 0))
    && (final == 0x42 ==> t.cy == Min(s.cy + n, s.cfg.rows - 1))
    && (final == 0x43 ==> t.cx == Min(s.cx + n, s.cfg.cols - 1))
    && (final == 0x44 ==> t.cx == Max(s.cx - n, 0))
    && (final == 0x47 ==> t.cx == Min(n, s.cfg.cols) - 1)
    && (final == 0x64 ==> t.cy == Min(n, s.cfg.rows) - 1)
    && (final in {0x48, 0x66} ==> t.cy == Min(n, s.cfg.rows) - 1 && t.cx == Min(m, s.cfg.cols) - 1)
  }

  /** CUU, CUD, CUF, CUB, CHA, VPA, CUP and HVP. */
  lemma RunMove(s: State, priv: bool, ns: seq<nat>, final: Byte, rest: seq<Byte>) returns (t: State)
    requires Ready(s) && final in {0x41, 0x42, 0x43, 0x44, 0x47, 0x64, 0x48, 0x66}
    ensures Ready(t) && t.input.pend == s.input.pend && Moves(s, t, final, Count(ns, 0), Count(ns, 1))
    ensures Run(s, CsiBytes(priv, Numerals(ns), final) + rest) == Run(t, rest)
  {
    hide Run, Numerals, CsiBytes, Sgr, SetMargins, Shape, EraseDisplay, EraseLine;
    RoomFor(s);
    t := RunFinal(s, priv, ns, final, rest);
  }

  lemma RoomFor(s: State)
    requires Ready(s)
    ensures s.cx < s.cfg.cols && s.cy < s.cfg.rows
  {
  }

  /** Inside the screen a movement is undone by its opposite. */
  lemma MovesBack(s: State, t: State, u: State, n: nat)
    requires Shape(s)
    requires || (Moves(s, t, 0x41, n, 1) && Moves(t, u, 0x42, n, 1) && n <= s.cy)
             || (Moves(s, t, 0x43, n, 1) && Moves(t, u, 0x44, n, 1) && s.cx + n < s.cfg.cols)
    ensures u.cx == s.cx && u.cy == s.cy
  {
  }

  // ---- Saving and restoring the cursor ----

  lemma DrawKeepsSaved(s: State, r: Rune)
    requires Shape(s)
    ensures Draw(s, r).saved == s.saved && Draw(s, r).cfg == s.cfg
  {
    hide LineFeed, PutRune;
    LineFeedKeepsSaved(s.(cx := 0));
    if s.cfg.width(r) != 0 {
      LineFeedKeepsSaved(TakeWrap(s).(cx := 0));
    }
  }

  lemma LineFeedKeepsSaved(s: State)
    requires Shape(s)
    ensures LineFeed(s).saved == s.saved && LineFeed(s).cfg == s.cfg
  {
    hide ScrollUp, Push;
  }

  lemma CsiKeepsSaved(s: State, ps: seq<nat>, final: Byte)
    requires Shape(s)
    ensures CsiEffect(s, ps, final).saved == s.saved
  {
    hide CursorEffect, EraseSpan, BlankRows, BlankGrid;
  }

  lemma EscapeKeepsSaved(s: State, c: Byte)
    requires Shape(s) && ParmOk(s) && c != 0x37
    ensures EscapeByte(s, c).saved == s.saved
  {
    hide LineFeed, ScrollDown, Clamp;
    LineFeedKeepsSaved(InState(s, Ground));
    LineFeedKeepsSaved(InState(s, Ground).(cx := 0));
  }

  lemma ControlKeepsSaved(s: State, c: Byte)
    requires Shape(s) && ParmOk(s) && (s.input.parser == Escape ==> c != 0x37)
    ensures ControlByte(s, c).cfg == s.cfg && ControlByte(s, c).saved == s.saved
  {
    hide Params, LineFeed, EscapeByte, CsiEffect, Shape;
    match s.input.parser
    case Ground => LineFeedKeepsSaved(s);
    case Escape => EscapeKeepsSaved(s, c);
    case Csi => CsiKeepsSaved(s, Params(s.input.parm), c);
    case Osc =>
    case OscEscape =>
  }

  /** Without a 7 nothing changes the saved position. */
  lemma {:induction false} SavedStays(s: State, p: seq<Byte>)
    requires Shape(s) && ParmOk(s) && 0x37 !in p
    ensures Run(s, p).saved == s.saved && Run(s, p).cfg == s.cfg
    decreases |p|
  {
    hide Shape, ControlByte, Draw;
    if s.panicked || p == [] {
    } else if IsText(s, p[0]) {
      var n := SequenceLength(p[0]);
      if n == 0 {
        SavedStays(s, p[1..]);
      } else if n <= |p| {
        DrawKeepsSaved(s, if n == 1 then p[0] else DecodeFirst(p[..n]));
        SavedStays(DrawSequence(s, p[..n]), p[n..]);
      }
    } else {
      ControlKeepsSaved(s, p[0]);
      SavedStays(ControlByte(s, p[0]), p[1..]);
    }
  }

  /** DECSC, any bytes without a 7 that end between sequences, DECRC: the cursor is back. */
  lemma SaveRestore(s: State, p: seq<Byte>)
    requires Ready(s) && 0x37 !in p
    ensures var a := s.(saved := (s.cx, s.cy)); Shape(a) && Run(s, [ESC, 0x37] + p) == Run(a, p)
    ensures var b := Run(s, [ESC, 0x37] + p);
      Ready(b) ==>
      var t := Run(b, [ESC, 0x38]); t == b.(cx := s.cx, cy := s.cy)
  {
    var a := s.(saved := (s.cx, s.cy));
    SameShape(s, a);
    RunEscape(s, 0x37, p);
    assert EscapeByte(InState(s, Escape), 0x37) == a;
    SavedStays(a, p);
    var b := Run(s, [ESC, 0x37] + p);
    assert s.cx < b.cfg.cols && s.cy < b.cfg.rows;
    hide Run, Shape;
    if Ready(b) {
      RunEscape(b, 0x38, []);
      assert [ESC, 0x38] + [] == [ESC, 0x38 as Byte];
      assert EscapeByte(InState(b, Escape), 0x38) == b.(cx := s.cx, cy := s.cy);
      RunNothing(EscapeByte(InState(b, Escape), 0x38));
    }
  }

  // ---- Margins ----

  /** DECSTBM takes two positive numbers as they are and anything else for the whole screen,
      and puts the cursor on the top margin; with a question mark it does nothing. */
  lemma RunMargins(s: State, priv: bool, ns: seq<nat>, rest: seq<Byte>) returns (t: State)
    requires Ready(s)
    ensures Ready(t) && t.input.pend == s.input.pend
    ensures t == s.(cx := t.cx, cy := t.cy, top := t.top, bot := t.bot, wrap := false, input := t.input)
    ensures if priv then t.cx == s.cx && t.cy == s.cy && t.top == s.top && t.bot == s.bot
            else && t.cx == 0 && t.cy == Min(t.top, s.cfg.rows - 1)
                 && (if |ns| >= 2 && ns[0] > 0 && ns[1] > 0 then t.top + 1 == ns[0] && t.bot + 1 == ns[1]
                     else t.top == 0 && t.bot + 1 == s.cfg.rows)
    ensures Run(s, CsiBytes(priv, Numerals(ns), 0x72) + rest) == Run(t, rest)
  {
    hide Run, Numerals, CsiBytes, Sgr;
    t := RunFinal(s, priv, ns, 0x72, rest);
  }

  // ---- Erasing ----

  /** The number of an erasure: missing means 0. */
  function ModeOf(ns: seq<nat>): nat {
    if ns == [] then 0 else ns[0]
  }

  /** Columns that EL empties in the line of the cursor. */
  predicate InLine(mode: nat, cx: nat, cy: nat, x: nat, y: nat) {
    y == cy && ((mode == 0 && x >= cx) || (mode == 1 && x <= cx) || mode == 2)
  }

  /** Cells that ED empties. */
  predicate InDisplay(mode: nat, cx: nat, cy: nat, x: nat, y: nat) {
    || (mode == 0 && (y > cy || (y == cy && x >= cx)))
    || (mode == 1 && (y < cy || (y == cy && x <= cx)))
    || mode == 2 || mode == 3
  }

  /** `t` is `s` with exactly the cells empty that EL empties. */
  ghost predicate EmptiedLine(s: State, t: State, mode: nat)
    requires Shape(s) && Shape(t) && t.cfg == s.cfg
  {
    forall y, x | 0 <= y < s.cfg.rows && 0 <= x < s.cfg.cols ::
      t.grid[y][x] == if InLine(mode, s.cx, s.cy, x, y) then EMPTY else s.grid[y][x]
  }

  lemma EraseLineCells(s: State, mode: nat)
    requires Shape(s)
    ensures var t := EraseLine(s, mode); t == s.(grid := t.grid) && EmptiedLine(s, t, mode)
  {
    hide EraseSpan;
  }

  /** `t` is `s` with exactly the cells empty that ED empties. */
  ghost predicate Emptied(s: State, t: State, mode: nat)
    requires Shape(s) && Shape(t) && t.cfg == s.cfg
  {
    forall y, x | 0 <= y < s.cfg.rows && 0 <= x < s.cfg.cols ::
      t.grid[y][x] == if InDisplay(mode, s.cx, s.cy, x, y) then EMPTY else s.grid[y][x]
  }

  lemma EraseBelow(s: State)
    requires Shape(s)
    ensures var t := EraseDisplay(s, 0); t == s.(grid := t.grid) && Emptied(s, t, 0)
  {
    EraseLineCells(s, 0);
    hide EraseLine, BlankRows;
  }

  lemma EraseAbove(s: State)
    requires Shape(s)
    ensures var t := EraseDisplay(s, 1); t == s.(grid := t.grid) && Emptied(s, t, 1)
  {
    var u := s.(grid := BlankRows(s.grid, 0, s.cy, s.cfg.cols));
    EraseLineCells(u, 1);
    assert EraseDisplay(s, 1) == EraseLine(u, 1);
    hide EraseDisplay, EraseLine, BlankRows;
  }

  lemma EraseDisplayCells(s: State, mode: nat)
    requires Shape(s)
    ensures var t := EraseDisplay(s, mode);
      && t == s.(grid := t.grid, past := t.past) && Emptied(s, t, mode)
      && t.past == (if mode == 3 then s.past.(lines := [], clears := s.past.clears + 1) else s.past)
  {
    if mode == 0 {
      EraseBelow(s);
      hide EraseDisplay;
    } else if mode == 1 {
      EraseAbove(s);
      hide EraseDisplay;
    }
    hide EraseLine, BlankRows;
  }

  /** EL empties exactly the columns its number names, in the line of the cursor. */
  lemma RunEraseLine(s: State, priv: bool, ns: seq<nat>, rest: seq<Byte>) returns (t: State)
    requires Ready(s)
    ensures Ready(t) && t.input.pend == s.input.pend && t == s.(grid := t.grid, wrap := false, input := t.input)
    ensures EmptiedLine(s, t, ModeOf(ns))
    ensures Run(s, CsiBytes(priv, Numerals(ns), 0x4b) + rest) == Run(t, rest)
  {
    hide Run, Numerals, CsiBytes, EraseLine;
    t := RunFinal(s, priv, ns, 0x4b, rest);
    var a := AtFinal(s, priv, Numerals(ns));
    EraseLineCells(a, ModeOf(ns));
    assert t.grid == EraseLine(a, ModeOf(ns)).grid;
  }

  /** ED empties exactly the cells its number names; only with 3 the retained history goes. */
  lemma RunEraseDisplay(s: State, priv: bool, ns: seq<nat>, rest: seq<Byte>) returns (t: State)
    requires Ready(s)
    ensures Ready(t) && t.input.pend == s.input.pend
    ensures t == s.(grid := t.grid, past := t.past, wrap := false, input := t.input)
    ensures t.past == if ModeOf(ns) == 3 then s.past.(lines := [], clears := s.past.clears + 1) else s.past
    ensures Emptied(s, t, ModeOf(ns))
    ensures Run(s, CsiBytes(priv, Numerals(ns), 0x4a) + rest) == Run(t, rest)
  {
    hide Run, Numerals, CsiBytes, EraseDisplay;
    t := RunFinal(s, priv, ns, 0x4a, rest);
    var a := AtFinal(s, priv, Numerals(ns));
    EraseDisplayCells(a, ModeOf(ns));
    assert t.grid == EraseDisplay(a, ModeOf(ns)).grid;
  }

  /** Every other final byte but those of margins, modes and renditions does nothing. */
  lemma RunIgnored(s: State, priv: bool, ns: seq<nat>, final: Byte, rest: seq<Byte>) returns (t: State)
    requires Ready(s) && IsFinal(final)
    requires final !in {0x41, 0x42, 0x43, 0x44, 0x47, 0x48, 0x4a, 0x4b, 0x64, 0x66, 0x68, 0x6c, 0x6d, 0x72}
    ensures Ready(t) && t.input.pend == s.input.pend && t == s.(wrap := false, input := t.input)
    ensures Run(s, CsiBytes(priv, Numerals(ns), final) + rest) == Run(t, rest)
  {
    hide Run, Numerals, CsiBytes, Sgr, SetMargins;
    t := RunFinal(s, priv, ns, final, rest);
  }

  // ---- Renditions ----

  /** The pen after a number that needs no others. */
  ghost predicate Selects(pen: Style, n: nat, q: Style) {
    && (n == 0 ==> q == PLAIN)
    && (n in {1, 22} ==> q == pen.(bold := n == 1)) && (n in {3, 23} ==> q == pen.(italic := n == 3))
    && (n in {4, 24} ==> q == pen.(under := n == 4)) && (n in {7, 27} ==> q == pen.(reverse := n == 7))
    && (n == 39 ==> q == pen.(fg := DEFAULT_COLOR)) && (n == 49 ==> q == pen.(bg := DEFAULT_COLOR))
    && (n / 10 == 3 && n % 10 < 8 ==> q == Sgr(pen, [38, 5, n % 10]))
    && (n / 10 == 4 && n % 10 < 8 ==> q == Sgr(pen, [48, 5, n % 10]))
    && (n / 10 == 9 && n % 10 < 8 ==> q == Sgr(pen, [38, 5, n % 10 + 8]))
    && (n / 10 == 10 && n % 10 < 8 ==> q == Sgr(pen, [48, 5, n % 10 + 8]))
    && (!IsRendition(n) ==> q == pen)
  }

  predicate IsRendition(n: nat) {
    n in {0, 1, 3, 4, 7, 22, 23, 24, 27, 38, 39, 48, 49} || (n / 10 in {3, 4, 9, 10} && n % 10 < 8)
  }

  lemma PaletteColor(pen: Style, k: nat)
    requires k < 256
    ensures Sgr(pen, [38, 5, k]) == pen.(fg := k + 1) && Sgr(pen, [48, 5, k]) == pen.(bg := k + 1)
  {
    SgrWhole(pen, [38, 5, k]);
    SgrWhole(pen, [48, 5, k]);
  }

  /** The pen after a flag, a default colour, or a number without a meaning. */
  lemma SelectsFlag(pen: Style, n: nat)
    requires n !in {38, 48} && !(n / 10 in {3, 4, 9, 10} && n % 10 < 8)
    ensures Selects(pen, n, SgrOne(pen, [n], 0).0)
  {
    hide Sgr;
  }

  lemma SelectsColor(pen: Style, n: nat)
    requires n / 10 in {3, 4, 9, 10} && n % 10 < 8
    ensures Selects(pen, n, SgrOne(pen, [n], 0).0)
  {
    PaletteColor(pen, n % 10);
    PaletteColor(pen, n % 10 + 8);
    hide Sgr;
  }

  /** Each rendition sets its own attribute and no other; the sixteen named colours are the
      first sixteen of the palette. */
  lemma SgrSelects(pen: Style, n: nat)
    requires n !in {38, 48}
    ensures Selects(pen, n, Sgr(pen, [n]))
  {
    SgrWhole(pen, [n]);
    hide Sgr, SgrOne, Selects;
    if n / 10 in {3, 4, 9, 10} && n % 10 < 8 {
      SelectsColor(pen, n);
    } else {
      SelectsFlag(pen, n);
    }
  }

  lemma {:induction false} SgrFromTail(pen: Style, a: seq<nat>, b: seq<nat>, i: nat)
    requires i <= |b|
    ensures SgrFrom(pen, a + b, |a| + i) == SgrFrom(pen, b, i)
    decreases |b| - i
  {
    if i < |b| {
      var (next, j) := SgrOne(pen, b, i);
      ColorShift(a, b, i);
      assert SgrOne(pen, a + b, |a| + i) == (next, |a| + j);
      SgrFromTail(next, a, b, j);
    }
  }

  lemma ColorShift(a: seq<nat>, b: seq<nat>, i: nat)
    requires i < |b|
    ensures ColorExt(a + b, |a| + i) == (|a| + ColorExt(b, i).0, ColorExt(b, i).1)
  {
  }

  /** From `i` on, the list ends where a rendition ends. */
  predicate Whole(ns: seq<nat>, i: nat)
    requires i <= |ns|
    decreases |ns| - i
  {
    if i == |ns| then true
    else if ns[i] !in {38, 48} then Whole(ns, i + 1)
    else if i + 2 < |ns| && ns[i + 1] == 5 then Whole(ns, i + 3)
    else i + 4 < |ns| && ns[i + 1] == 2 && Whole(ns, i + 5)
  }

  lemma {:induction false} SgrFromHead(pen: Style, a: seq<nat>, b: seq<nat>, i: nat)
    requires i <= |a| && Whole(a, i)
    ensures SgrFrom(pen, a + b, i) == SgrFrom(SgrFrom(pen, a, i), b, 0)
    decreases |a| - i
  {
    if i == |a| {
      SgrFromTail(pen, a, b, 0);
    } else {
      var (next, j) := SgrOne(pen, a, i);
      assert SgrOne(pen, a + b, i) == (next, j) && Whole(a, j);
      SgrFromHead(next, a, b, j);
    }
  }

  /** Renditions one after the other, in one list or in two. */
  lemma SgrSplits(pen: Style, a: seq<nat>, b: seq<nat>)
    requires a != [] && b != [] && Whole(a, 0)
    ensures Sgr(pen, a + b) == Sgr(Sgr(pen, a), b)
  {
    hide SgrOne;
    SgrFromHead(pen, a, b, 0);
  }
}
