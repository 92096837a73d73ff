/** Main results about the terminal model: how input is cut into reads does not
    matter, exactly which margins can make it index out of range, and what one
    read can do to the history. */
module TerminalTheorems {
  import opened Bytes
  import opened Utf8
  import opened Terminal
  import opened TerminalInvariants
  import opened ControlSequences

  /** The invariant of the states between calls. It says nothing of margins and colours, so
      it holds of states no input leads to as well; where a result says that some state can
      go wrong, a lemma beside it gives the bytes that do it from a new model. */
  ghost predicate Reached(s: State) {
    Inv(s) && PendOk(s)
  }

  // ---- Chunk independence ----

  lemma {:induction false} RunSplit(s: State, a: seq<Byte>, b: seq<Byte>)
    requires Shape(s) && ParmOk(s) && s.input.pend == []
    ensures Run(s, a + b) == Feed(Run(s, a), b)
    decreases |a|
  {
    hide Shape, ControlByte, DrawSequence;
    if s.panicked {
    } else if a == [] {
      assert a + b == b == [] + b;
      assert Carrying(s, []) == s;
    } else if IsText(s, a[0]) {
      var n := SequenceLength(a[0]);
      if n == 0 {
        assert (a + b)[1..] == a[1..] + b;
        RunSplit(s, a[1..], b);
      } else if n > |a| {
        assert Carrying(Carrying(s, a), []) == s;
      } else {
        assert (a + b)[..n] == a[..n] && (a + b)[n..] == a[n..] + b;
        RunSplit(DrawSequence(s, a[..n]), a[n..], b);
      }
    } else {
      assert (a + b)[1..] == a[1..] + b;
      RunSplit(ControlByte(s, a[0]), a[1..], b);
    }
  }

  lemma FeedSplit(s: State, a: seq<Byte>, b: seq<Byte>)
    requires Shape(s) && ParmOk(s)
    ensures Feed(s, a + b) == Feed(Feed(s, a), b)
  {
    if !s.panicked {
      assert s.input.pend + (a + b) == (s.input.pend + a) + b;
      RunSplit(Carrying(s, []), s.input.pend + a, b);
    }
    hide Run;
  }

  /** Feeding nothing changes nothing. */
  lemma FeedNothing(s: State)
    requires Reached(s)
    ensures Feed(s, []) == s
  {
    hide Inv;
    var q := s.input.pend;
    assert q + [] == q;
    assert Shape(s) && ParmOk(s) by { InvShape(s); }
    if !s.panicked && q != [] {
      assert Run(Carrying(s, []), q) == Carrying(Carrying(s, []), q) == s;
    }
  }

  lemma InvShape(s: State)
    requires Inv(s)
    ensures Shape(s) && ParmOk(s)
  {
  }

  lemma FeedIsRun(n: State, bytes: seq<Byte>)
    requires Shape(n) && ParmOk(n) && n.input.pend == [] && !n.panicked
    ensures Feed(n, bytes) == Run(n, bytes)
  {
    hide Run;
    assert Carrying(n, []) == n && [] + bytes == bytes;
  }

  lemma FeedReaches(n: State, bytes: seq<Byte>)
    requires Reached(n) && Shape(n) && ParmOk(n)
    ensures Reached(Feed(n, bytes))
  {
    hide Inv, PendOk, Feed;
    FeedInv(n, bytes);
  }

  function FeedAll(s: State, chunks: seq<seq<Byte>>): (t: State)
    requires Shape(s) && ParmOk(s)
    ensures Shape(t) && ParmOk(t)
    decreases |chunks|
  {
    if chunks == [] then s else FeedAll(Feed(s, chunks[0]), chunks[1..])
  }

  /** However a byte string is cut, the whole model ends in the same state. */
  lemma {:induction false} ChunkIndependence(s: State, chunks: seq<seq<Byte>>)
    requires Reached(s) && Shape(s) && ParmOk(s)
    ensures FeedAll(s, chunks) == Feed(s, Flatten(chunks))
    decreases |chunks|
  {
    if chunks == [] {
      FeedNothing(s);
    } else {
      FeedInv(s, chunks[0]);
      ChunkIndependence(Feed(s, chunks[0]), chunks[1..]);
      FeedSplit(s, chunks[0], Flatten(chunks[1..]));
    }
    hide Feed, Inv, PendOk, Shape, ParmOk;
  }

  // ---- Narrow streams ----

  /** No rune takes two columns. */
  ghost predicate NarrowWidths(width: Rune -> Width) {
    forall r :: width(r) <= 1
  }

  lemma DrawStaysNarrow(s: State, r: Rune)
    requires Shape(s) && s.cfg.width(r) <= 1
    ensures Draw(s, r).wideDrawn == s.wideDrawn && Draw(s, r).cfg == s.cfg
  {
    hide ScrollUp, Push;
  }

  /** Nothing is drawn between `s` and `t`. */
  ghost predicate NothingDrawn(s: State, t: State) {
    t.wideDrawn == s.wideDrawn && t.cfg == s.cfg
  }

  lemma EraseDrawsNothing(s: State, mode: nat)
    requires Shape(s)
    ensures NothingDrawn(s, EraseDisplay(s, mode)) && NothingDrawn(s, EraseLine(s, mode))
  {
  }

  lemma CsiDrawsNothing(s: State, c: Byte)
    requires Shape(s) && ParmOk(s)
    ensures NothingDrawn(s, CsiByte(s, c))
  {
    hide Shape, Params, EraseDisplay, EraseLine, CursorEffect, IsParameterByte;
    var ps := Params(s.input.parm);
    EraseDrawsNothing(s, if ps == [] then 0 else ps[0]);
  }

  lemma EscapeDrawsNothing(s: State, c: Byte)
    requires Shape(s) && ParmOk(s)
    ensures NothingDrawn(s, EscapeByte(s, c))
  {
    hide ScrollUp, ScrollDown, Push;
  }

  lemma ControlDrawsNothing(s: State, c: Byte)
    requires Shape(s) && ParmOk(s)
    ensures NothingDrawn(s, ControlByte(s, c))
  {
    hide EscapeByte, CsiByte, ScrollUp, Push;
    match s.input.parser
    case Ground =>
    case Escape => EscapeDrawsNothing(s, c);
    case Csi => CsiDrawsNothing(s, c);
    case Osc =>
    case OscEscape =>
  }

  lemma {:induction false} RunStaysNarrow(s: State, p: seq<Byte>)
    requires Shape(s) && ParmOk(s) && NarrowWidths(s.cfg.width)
    ensures Run(s, p).wideDrawn == s.wideDrawn
    decreases |p|
  {
    hide Shape, ControlByte, Draw;
    if s.panicked || p == [] {
    } else if IsText(s, p[0]) {
      var n := SequenceLength(p[0]);
      if n == 0 {
        RunStaysNarrow(s, p[1..]);
      } else if n <= |p| {
        DrawStaysNarrow(s, if n == 1 then p[0] else DecodeFirst(p[..n]));
        RunStaysNarrow(DrawSequence(s, p[..n]), p[n..]);
      }
    } else {
      ControlDrawsNothing(s, p[0]);
      RunStaysNarrow(ControlByte(s, p[0]), p[1..]);
    }
  }

  /** A stream of runes of at most one column never draws a wide one. */
  lemma FeedStaysNarrow(s: State, p: seq<Byte>)
    requires Shape(s) && ParmOk(s) && NarrowWidths(s.cfg.width)
    ensures Feed(s, p).wideDrawn == s.wideDrawn
  {
    RunStaysNarrow(Carrying(s, []), s.input.pend + p);
    hide Run;
  }

  // ---- Margins that can make the model index out of range ----

  /** Both margins are on the screen or both are beyond it. */
  predicate SafeMargins(s: State) {
    s.top < s.cfg.rows <==> s.bot < s.cfg.rows
  }

  /** If byte `c` completes a margin request, its two margins are both on the
      screen or both beyond it. */
  ghost predicate SafeRequest(s: State, c: Byte)
    requires ParmOk(s)
  {
    s.input.parser == Csi && c == 0x72 && !s.input.csiPv ==>
      var ps := Params(s.input.parm);
      |ps| >= 2 && ps[0] > 0 && ps[1] > 0 ==> (ps[0] <= s.cfg.rows <==> ps[1] <= s.cfg.rows)
  }

  /** Every margin request met while running over `p` is safe. */
  ghost predicate SafeRequests(s: State, p: seq<Byte>)
    requires Shape(s) && ParmOk(s)
    decreases |p|
  {
    if p == [] || s.panicked then true
    else if IsText(s, p[0]) then
      var n := SequenceLength(p[0]);
      if n == 0 then SafeRequests(s, p[1..])
      else n > |p| || SafeRequests(DrawSequence(s, p[..n]), p[n..])
    else SafeRequest(s, p[0]) && SafeRequests(ControlByte(s, p[0]), p[1..])
  }

  /** `t` has the margins of `s` and no index went out of range. */
  ghost predicate StillSafe(s: State, t: State) {
    t.cfg == s.cfg && t.top == s.top && t.bot == s.bot && !t.panicked
  }

  lemma LineFeedSafe(s: State)
    requires Shape(s) && SafeMargins(s) && !s.panicked
    ensures StillSafe(s, LineFeed(s))
  {
    hide ScrollUp, Push;
  }

  lemma DrawSafe(s: State, r: Rune)
    requires Shape(s) && SafeMargins(s) && !s.panicked
    ensures StillSafe(s, Draw(s, r))
  {
    hide LineFeed, PutRune;
    if s.cfg.width(r) != 0 {
      LineFeedSafe(s.(cx := 0));
      var a := TakeWrap(s);
      LineFeedSafe(a.(cx := 0));
    }
  }

  lemma EscapeSafe(s: State, c: Byte)
    requires Shape(s) && ParmOk(s) && SafeMargins(s) && !s.panicked
    ensures StillSafe(s, EscapeByte(s, c))
  {
    hide LineFeed, ScrollDown;
    LineFeedSafe(InState(s, Ground));
    LineFeedSafe(InState(s, Ground).(cx := 0));
  }

  lemma EraseSafe(s: State, mode: nat)
    requires Shape(s) && !s.panicked
    ensures StillSafe(s, EraseDisplay(s, mode)) && StillSafe(s, EraseLine(s, mode))
  {
  }

  lemma CsiSafe(s: State, c: Byte)
    requires Shape(s) && ParmOk(s) && SafeMargins(s) && !s.panicked
    requires s.input.parser == Csi && SafeRequest(s, c)
    ensures SafeMargins(CsiByte(s, c)) && !CsiByte(s, c).panicked
  {
    hide Params, Shape, Sgr, EraseDisplay, EraseLine, Clamp, Arg, IsParameterByte;
    var ps := Params(s.input.parm);
    EraseSafe(s, if ps == [] then 0 else ps[0]);
    if c == 0x4a || c == 0x4b {
    } else if c == 0x72 {
      RequestSafe(s, ps);
    } else {
      OtherFinalSafe(s, ps, c);
    }
    hide CursorEffect;
  }

  lemma RequestSafe(s: State, ps: seq<nat>)
    requires Shape(s) && SafeMargins(s) && !s.panicked
    requires !s.input.csiPv && |ps| >= 2 && ps[0] > 0 && ps[1] > 0 ==> (ps[0] <= s.cfg.rows <==> ps[1] <= s.cfg.rows)
    ensures SafeMargins(CursorEffect(s, ps, 0x72)) && !CursorEffect(s, ps, 0x72).panicked
  {
    hide MoveTo;
    assert s.cfg.rows >= 1;
    hide Shape;
  }

  lemma OtherFinalSafe(s: State, ps: seq<nat>, final: Byte)
    requires Shape(s) && !s.panicked && final != 0x72
    ensures StillSafe(s, CursorEffect(s, ps, final))
  {
    hide Shape, Sgr, Clamp, Arg;
  }

  lemma ControlSafe(s: State, c: Byte)
    requires Shape(s) && ParmOk(s) && SafeMargins(s) && !s.panicked && SafeRequest(s, c)
    ensures SafeMargins(ControlByte(s, c)) && !ControlByte(s, c).panicked
  {
    hide LineFeed, EscapeByte, CsiByte, SafeRequest;
    match s.input.parser
    case Ground => LineFeedSafe(s);
    case Escape => EscapeSafe(s, c);
    case Csi => CsiSafe(s, c);
    case Osc =>
    case OscEscape =>
  }

  /** Safe margins and safe requests: no index is ever out of range. */
  lemma {:induction false} SafeRunNeverPanics(s: State, p: seq<Byte>)
    requires Shape(s) && ParmOk(s) && SafeMargins(s) && !s.panicked && SafeRequests(s, p)
    ensures SafeMargins(Run(s, p)) && !Run(s, p).panicked
    decreases |p|
  {
    hide Shape, SafeRequest, DrawSequence, ControlByte, SafeMargins;
    if p == [] {
    } else if IsText(s, p[0]) {
      var n := SequenceLength(p[0]);
      if n == 0 {
        SafeRunNeverPanics(s, p[1..]);
      } else if n <= |p| {
        assert SafeMargins(DrawSequence(s, p[..n])) && !DrawSequence(s, p[..n]).panicked by {
          DrawSequenceSafe(s, p[..n]);
        }
        SafeRunNeverPanics(DrawSequence(s, p[..n]), p[n..]);
      } else {
        CarryingSafe(s, p);
      }
    } else {
      ControlSafe(s, p[0]);
      SafeRunNeverPanics(ControlByte(s, p[0]), p[1..]);
    }
  }

  lemma CarryingSafe(s: State, p: seq<Byte>)
    requires SafeMargins(s) && !s.panicked
    ensures SafeMargins(Carrying(s, p)) && !Carrying(s, p).panicked
  {
  }

  lemma DrawSequenceSafe(s: State, bs: seq<Byte>)
    requires Shape(s) && SafeMargins(s) && !s.panicked
    requires |bs| >= 1 && |bs| == SequenceLength(bs[0])
    ensures SafeMargins(DrawSequence(s, bs)) && !DrawSequence(s, bs).panicked
  {
    DrawSafe(s, if |bs| == 1 then bs[0] else DecodeFirst(bs));
    hide Draw;
  }

  /** While running over `p` no margin request is completed. */
  ghost predicate CompletesNone(s: State, p: seq<Byte>)
    requires Shape(s) && ParmOk(s)
    decreases |p|
  {
    if p == [] || s.panicked then true
    else if IsText(s, p[0]) then
      var n := SequenceLength(p[0]);
      if n == 0 then CompletesNone(s, p[1..])
      else n > |p| || CompletesNone(DrawSequence(s, p[..n]), p[n..])
    else !CompletesMargins(s, p[0]) && CompletesNone(ControlByte(s, p[0]), p[1..])
  }

  predicate CompletesMargins(s: State, c: Byte) {
    s.input.parser == Csi && c == 0x72 && !s.input.csiPv
  }

  /** Feeding `p` completes no margin request. */
  ghost predicate FeedsNoMargins(s: State, p: seq<Byte>)
    requires Shape(s) && ParmOk(s)
  {
    CompletesNone(Carrying(s, []), s.input.pend + p)
  }

  lemma {:induction false} NoRequestIsSafe(s: State, p: seq<Byte>)
    requires Shape(s) && ParmOk(s) && CompletesNone(s, p)
    ensures SafeRequests(s, p)
    decreases |p|
  {
    hide Shape, DrawSequence, ControlByte;
    if p == [] || s.panicked {
    } else if IsText(s, p[0]) {
      var n := SequenceLength(p[0]);
      if n == 0 {
        NoRequestIsSafe(s, p[1..]);
      } else if n <= |p| {
        NoRequestIsSafe(DrawSequence(s, p[..n]), p[n..]);
      }
    } else {
      NoRequestIsSafe(ControlByte(s, p[0]), p[1..]);
    }
  }

  /** Bytes without an `r` complete no margin request. */
  lemma {:induction false} NoLetterNoRequest(s: State, p: seq<Byte>)
    requires Shape(s) && ParmOk(s) && 0x72 !in p
    ensures CompletesNone(s, p)
    decreases |p|
  {
    hide Shape, DrawSequence, ControlByte;
    if p == [] || s.panicked {
    } else if IsText(s, p[0]) {
      var n := SequenceLength(p[0]);
      if n == 0 {
        NoLetterNoRequest(s, p[1..]);
      } else if n <= |p| {
        NoLetterNoRequest(DrawSequence(s, p[..n]), p[n..]);
      }
    } else {
      NoLetterNoRequest(ControlByte(s, p[0]), p[1..]);
    }
  }

  /** Bytes that finish whatever rune or sequence is unfinished. */
  function Finisher(s: State): seq<Byte> {
    if s.input.pend != [] then
      var n := SequenceLength(s.input.pend[0]);
      if n > |s.input.pend| then seq(n - |s.input.pend|, _ => 0x80) else []
    else
      match s.input.parser
      case Ground => []
      case Escape => [0x3d]
      case Csi => [0x71]
      case Osc => [0x07]
      case OscEscape => [0x5c]
  }

  lemma DrawKeepsMargins(s: State, r: Rune)
    requires Shape(s)
    ensures var t := Draw(s, r); t.top == s.top && t.bot == s.bot && t.cfg == s.cfg && t.input == s.input
  {
    hide LineFeed, PutRune;
    LineFeedKeepsMargins(s.(cx := 0));
    var a := TakeWrap(s);
    LineFeedKeepsMargins(a.(cx := 0));
  }

  lemma LineFeedKeepsMargins(s: State)
    requires Shape(s)
    ensures var t := LineFeed(s); t.top == s.top && t.bot == s.bot && t.cfg == s.cfg && t.input == s.input
  {
    hide ScrollUp, Push;
  }

  lemma FinishesControl(s: State, c: Byte)
    requires Shape(s) && ParmOk(s) && !s.panicked && s.input.pend == []
    requires s.input.parser != Ground && Finisher(s) == [c]
    ensures var t := ControlByte(s, c);
      Ready(t) && t.input.pend == [] && t.top == s.top && t.bot == s.bot && t.cfg == s.cfg
    ensures !CompletesMargins(s, c) && !IsText(s, c)
  {
    hide Shape, LineFeed, ReverseIndex, EraseDisplay, EraseLine, Sgr;
  }

  /** Then the model is in ground state with the same margins, unless it went out of range. */
  lemma Finishes(s: State, more: seq<Byte>) returns (t: State)
    requires Inv(s) && PendOk(s) && Shape(s) && ParmOk(s) && !s.panicked && 0x72 !in more
    ensures Shape(t) && ParmOk(t) && t.cfg == s.cfg && t.top == s.top && t.bot == s.bot
    ensures !t.panicked ==> Ready(t) && t.input.pend == []
    ensures FeedsNoMargins(s, Finisher(s) + more)
    ensures Feed(s, Finisher(s) + more) == Run(t, more)
    ensures t == Run(Carrying(s, []), s.input.pend + Finisher(s))
  {
    hide Shape, Inv, Draw, ControlByte;
    var s0 := Carrying(s, []);
    SameShape(s, s0);
    var q := s.input.pend + Finisher(s);
    assert s.input.pend + (Finisher(s) + more) == q + more;
    if s.input.pend != [] {
      var n := SequenceLength(q[0]);
      assert |q| == n && (q + more)[..n] == q && (q + more)[n..] == more;
      DrawKeepsMargins(s0, DecodeFirst(q));
      t := DrawSequence(s0, q);
      assert q[..n] == q && q[n..] == [] && Run(t, []) == t;
      NoLetterNoRequest(t, more);
    } else if s.input.parser == Ground {
      t := s0;
      assert q + more == more;
      NoLetterNoRequest(t, more);
    } else {
      assert q == Finisher(s0) && |q| == 1;
      FinishesControl(s0, q[0]);
      t := ControlByte(s0, q[0]);
      assert q[1..] == [] && Run(t, []) == t;
      assert (q + more)[1..] == more;
      NoLetterNoRequest(t, more);
    }
  }

  /** Moves to the offending margin and scrolls over it. */
  function MarginWitness(s: State): seq<Byte> {
    if s.bot < s.cfg.rows then CsiBytes(false, Numerals([s.bot + 1]), 0x48) + [0x0a]
    else CsiBytes(false, Numerals([s.top + 1]), 0x48) + [ESC, 0x4d]
  }

  lemma UnsafeMarginsPanic(s: State)
    requires Ready(s) && !SafeMargins(s)
    ensures 0x72 !in MarginWitness(s) && Run(s, MarginWitness(s)).panicked
  {
    hide Shape, Run, Numerals;
    var y := if s.bot < s.cfg.rows then s.bot else s.top;
    var parm := Numerals([y + 1]);
    var t := AfterCsi(s, false, parm, 0x48);
    CupReaches(s, y);
    if s.bot < s.cfg.rows {
      RunCsi(s, false, parm, 0x48, [0x0a]);
      LineFeedPanics(t);
    } else {
      RunCsi(s, false, parm, 0x48, [ESC, 0x4d]);
      ReverseIndexPanics(t);
    }
  }

  /** CUP with one number goes to the first column of that line. */
  lemma CupReaches(s: State, y: nat)
    requires Ready(s) && y < s.cfg.rows
    ensures var t := AfterCsi(s, false, Numerals([y + 1]), 0x48);
            Ready(t) && t.cx == 0 && t.cy == y && t.top == s.top && t.bot == s.bot && t.cfg == s.cfg
  {
    hide Shape, Numerals, Params;
    ParamsInvertNumerals([y + 1]);
  }

  lemma LineFeedPanics(t: State)
    requires Ready(t) && t.cy == t.bot && t.top >= t.cfg.rows
    ensures Run(t, [0x0a]).panicked
  {
    RunControl(t, 0x0a, []);
    assert [0x0a] + [] == [0x0a as Byte];
  }

  lemma ReverseIndexPanics(t: State)
    requires Ready(t) && t.cy == t.top && t.bot >= t.cfg.rows
    ensures Run(t, [ESC, 0x4d]).panicked
  {
    var e := InState(t, Escape);
    SameShape(t, e);
    hide Shape;
    RunControl(t, ESC, [0x4d]);
    assert [ESC] + [0x4d] == [ESC, 0x4d];
    RunControl(e, 0x4d, []);
    assert [0x4d] + [] == [0x4d as Byte];
  }

  /** From any state: without another margin request the model stays within its grid if and
      only if both margins are on the screen or both are beyond it. The code takes any two
      positive numbers for margins. */
  lemma MarginSafetyIsExact(s: State)
    requires Reached(s) && Shape(s) && ParmOk(s) && !s.panicked
    ensures SafeMargins(s) <==> forall p: seq<Byte> | FeedsNoMargins(s, p) :: !Feed(s, p).panicked
  {
    hide Run, Inv, MarginWitness, Shape;
    if SafeMargins(s) {
      forall p: seq<Byte> | FeedsNoMargins(s, p)
        ensures !Feed(s, p).panicked
      {
        SafeFeed(s, p);
      }
    } else {
      var p := UnsafeFeed(s);
      assert FeedsNoMargins(s, p) && Feed(s, p).panicked;
    }
  }

  lemma SafeFeed(s: State, p: seq<Byte>)
    requires Shape(s) && ParmOk(s) && !s.panicked && SafeMargins(s) && FeedsNoMargins(s, p)
    ensures !Feed(s, p).panicked
  {
    hide Run, Shape;
    var s0 := Carrying(s, []);
    SameShape(s, s0);
    NoRequestIsSafe(s0, s.input.pend + p);
    SafeRunNeverPanics(s0, s.input.pend + p);
  }

  lemma UnsafeFeed(s: State) returns (p: seq<Byte>)
    requires Reached(s) && Shape(s) && ParmOk(s) && !s.panicked && !SafeMargins(s)
    ensures FeedsNoMargins(s, p) && Feed(s, p).panicked
  {
    hide Shape, Inv, Run, Feed, FeedsNoMargins;
    var t0 := Finishes(s, []);
    if t0.panicked {
      p := Finisher(s) + [];
      assert Run(t0, []).panicked by { PanickedStays(t0, []); }
    } else {
      UnsafeMarginsPanic(t0);
      var w := MarginWitness(t0);
      var t := Finishes(s, w);
      p := Finisher(s) + w;
      assert t == t0;
    }
  }

  lemma PanickedStays(s: State, p: seq<Byte>)
    requires Shape(s) && ParmOk(s) && s.panicked
    ensures Run(s, p).panicked
  {
  }

  /** A request for margins from the first line to the one below the last. */
  function MarginsBeyond(rows: nat): seq<Byte> {
    CsiBytes(false, Numerals([1, rows + 1]), 0x72)
  }

  /** Such a request is taken by a new model; then a line feed in the last line goes out of
      range. */
  lemma MarginsBeyondPanic(width: Rune -> Width, cols: nat, rows: nat)
    requires cols >= 1 && rows >= 1
    ensures var n := NewModel(width, cols, rows);
      && Shape(n) && ParmOk(n)
      && var s := Feed(n, MarginsBeyond(rows));
      && Reached(s) && !s.panicked && !SafeMargins(s)
      && Feed(n, MarginsBeyond(rows) + MarginWitness(s)).panicked
  {
    var n := NewModel(width, cols, rows);
    NewModelInv(width, cols, rows);
    MarginsTaken(n);
    hide Shape, Inv, Run, Numerals, Feed, MarginWitness, CsiBytes, PendOk;
    var s := Feed(n, MarginsBeyond(rows));
    FeedIsRun(n, MarginsBeyond(rows));
    FeedReaches(n, MarginsBeyond(rows));
    FeedSplit(n, MarginsBeyond(rows), MarginWitness(s));
    UnsafeMarginsPanic(s);
    FeedIsRun(s, MarginWitness(s));
  }

  lemma MarginsTaken(n: State)
    requires Ready(n)
    ensures var s := Run(n, MarginsBeyond(n.cfg.rows));
      Ready(s) && s.input.pend == n.input.pend && !SafeMargins(s)
  {
    hide Shape, Run, Numerals, CsiBytes, CsiDispatch, AfterCsi, SafeMargins;
    RequestReaches(n);
    RunCsi(n, false, Numerals([1, n.cfg.rows + 1]), 0x72, []);
    assert MarginsBeyond(n.cfg.rows) + [] == MarginsBeyond(n.cfg.rows);
    RunNothing(AfterCsi(n, false, Numerals([1, n.cfg.rows + 1]), 0x72));
  }

  lemma RequestReaches(s: State)
    requires Ready(s)
    ensures AllParameters(Numerals([1, s.cfg.rows + 1]))
    ensures var t := AfterCsi(s, false, Numerals([1, s.cfg.rows + 1]), 0x72);
      Ready(t) && t.input.pend == s.input.pend && !SafeMargins(t)
  {
    hide Shape, Numerals, Params;
    ParamsInvertNumerals([1, s.cfg.rows + 1]);
  }
}
