/** What every byte stream keeps true of the terminal model. */
module TerminalInvariants {
  import opened Bytes
  import opened Utf8
  import opened Terminal

  function Min(a: int, b: int): int {
    if a < b then a else b
  }

  /** A rune the machine can put on the grid: never a control, never a surrogate. */
  ghost predicate Drawable(width: Rune -> Width, r: Rune) {
    0x20 <= r && IsScalar(r) && width(r) >= 1
  }

  ghost predicate IsWide(width: Rune -> Width, c: Cell) {
    !c.cont && c.r != 0 && width(c.r) == 2
  }

  ghost predicate CellOk(width: Rune -> Width, wide: bool, c: Cell) {
    if c.cont then wide && c.r == 0
    else c == EMPTY || (Drawable(width, c.r) && (width(c.r) == 2 ==> wide))
  }

  /** Every cell is one the machine draws (with wide runes and continuation cells
      only once a wide rune was drawn), and a continuation cell next to a
      wide rune has that rune's style. */
  ghost predicate RowOk(width: Rune -> Width, wide: bool, row: Row) {
    && (forall x | 0 <= x < |row| :: CellOk(width, wide, row[x]))
    && (forall x | 0 <= x < |row| - 1 :: PairOk(width, row[x], row[x + 1]))
  }

  ghost predicate PairOk(width: Rune -> Width, left: Cell, right: Cell) {
    IsWide(width, left) && right.cont ==> right.st == left.st
  }

  ghost predicate GridInv(s: State) {
    Shape(s) && forall y | 0 <= y < s.cfg.rows :: RowOk(s.cfg.width, s.wideDrawn, s.grid[y])
  }

  /** History is the newest part of the log of all scrolled-out lines. */
  ghost predicate HistInv(s: State) {
    && |s.past.lines| <= HIST_MAX && |s.past.lines| <= |s.past.log|
    && s.past.lines == s.past.log[|s.past.log| - |s.past.lines|..]
    && s.past.total == |s.past.log|
    && (forall i | 0 <= i < |s.past.log| ::
          |s.past.log[i]| == s.cfg.cols && RowOk(s.cfg.width, s.wideDrawn, s.past.log[i]))
  }

  /** Carried bytes are a proper beginning of one multi-byte rune. */
  ghost predicate PendOk(s: State) {
    s.input.pend == [] || (s.input.parser == Ground && |s.input.pend| < SequenceLength(s.input.pend[0]))
  }

  ghost predicate Inv(s: State) {
    Shape(s) && |s.past.lines| <= HIST_MAX && GridInv(s) && HistInv(s) && ParmOk(s)
  }

  /** `t` comes after `s` with at most `k` lines scrolled out in between. As long
      as the scrollback is not erased, only the length cap drops history lines. */
  ghost predicate Follows(s: State, t: State, k: nat) {
    && t.cfg == s.cfg
    && s.past.log <= t.past.log && |t.past.log| <= |s.past.log| + k
    && t.past.clears >= s.past.clears
    && (t.past.clears == s.past.clears ==>
          |t.past.lines| == Min(HIST_MAX, |s.past.lines| + |t.past.log| - |s.past.log|))
  }

  lemma FollowsTransitive(s: State, t: State, u: State, k: nat, j: nat)
    requires Follows(s, t, k) && Follows(t, u, j)
    requires |s.past.lines| <= HIST_MAX
    ensures Follows(s, u, k + j)
  {
  }

  /** `t` has the history of `s`. */
  ghost predicate SameHistory(s: State, t: State) {
    t.past == s.past
  }

  lemma SameHistoryFollows(s: State, t: State)
    requires SameHistory(s, t) && SameSetting(s, t) && HistInv(s)
    requires s.wideDrawn ==> t.wideDrawn
    ensures HistInv(t) && Follows(s, t, 0)
  {
    WideRowsOk(s.cfg.width, s.wideDrawn, t.wideDrawn, s.past.log);
    hide RowOk;
  }

  lemma WideRowsOk(width: Rune -> Width, before: bool, after: bool, rows: seq<Row>)
    requires before ==> after
    requires forall i | 0 <= i < |rows| :: RowOk(width, before, rows[i])
    ensures forall i | 0 <= i < |rows| :: RowOk(width, after, rows[i])
  {
  }

  /** Moving the cursor or changing the pen, margins, flags or parser breaks nothing. */
  lemma Unmoved(s: State, t: State)
    requires Inv(s) && t.grid == s.grid && SameHistory(s, t) && SameSetting(s, t)
    requires t.wideDrawn == s.wideDrawn
    requires t.cx < t.cfg.cols && t.cy < t.cfg.rows && ParmOk(t)
    ensures Inv(t) && Follows(s, t, 0)
  {
    hide RowOk;
  }

  // ---- One operation at a time ----

  lemma BlankLineOk(width: Rune -> Width, wide: bool, cols: nat)
    ensures RowOk(width, wide, BlankLine(cols))
  {
  }

  lemma ScrollUpOk(width: Rune -> Width, wide: bool, grid: seq<Row>, top: nat, bot: nat, cols: nat)
    requires bot < |grid|
    requires forall y | 0 <= y < |grid| :: RowOk(width, wide, grid[y])
    ensures forall y | 0 <= y < |grid| :: RowOk(width, wide, ScrollUp(grid, top, bot, cols)[y])
  {
    BlankLineOk(width, wide, cols);
    hide RowOk;
  }

  lemma ScrollDownOk(width: Rune -> Width, wide: bool, grid: seq<Row>, top: nat, bot: nat, cols: nat)
    requires top < |grid| && bot < |grid|
    requires forall y | 0 <= y < |grid| :: RowOk(width, wide, grid[y])
    ensures forall y | 0 <= y < |grid| :: RowOk(width, wide, ScrollDown(grid, top, bot, cols)[y])
  {
    BlankLineOk(width, wide, cols);
    hide RowOk;
  }

  lemma AppendHistorySuffix(log: seq<Row>, hist: seq<Row>, line: Row)
    requires |hist| <= HIST_MAX && |hist| <= |log| && hist == log[|log| - |hist|..]
    ensures var h := AppendHistory(hist, line); var l := log + [line];
            && |h| == Min(HIST_MAX, |hist| + 1) && |h| <= |l| && h == l[|l| - |h|..]
  {
    assert log == log[..|log| - |hist|] + hist;
  }

  lemma LineFeedGrid(s: State)
    requires GridInv(s)
    ensures GridInv(LineFeed(s))
  {
    hide RowOk, ScrollUp, AppendHistory;
    if s.cy == s.bot && s.top < s.cfg.rows {
      ScrollUpOk(s.cfg.width, s.wideDrawn, s.grid, s.top, s.bot, s.cfg.cols);
    }
  }

  lemma LineFeedHist(s: State)
    requires Shape(s) && HistInv(s)
    requires forall y | 0 <= y < s.cfg.rows :: RowOk(s.cfg.width, s.wideDrawn, s.grid[y])
    ensures HistInv(LineFeed(s)) && Follows(s, LineFeed(s), 1)
  {
    hide RowOk, ScrollUp, AppendHistory;
    if s.cy == s.bot && s.top < s.cfg.rows {
      var line := s.grid[s.top];
      AppendHistorySuffix(s.past.log, s.past.lines, line);
    }
  }

  lemma LineFeedInv(s: State)
    requires GridInv(s) && HistInv(s)
    ensures GridInv(LineFeed(s)) && HistInv(LineFeed(s)) && Follows(s, LineFeed(s), 1)
  {
    hide RowOk, HistInv, Follows, LineFeed;
    LineFeedGrid(s);
    LineFeedHist(s);
  }

  lemma ReverseIndexInv(s: State)
    requires GridInv(s)
    ensures GridInv(ReverseIndex(s)) && SameHistory(s, ReverseIndex(s))
    ensures ReverseIndex(s).wideDrawn == s.wideDrawn
  {
    if s.cy == s.top && s.bot < s.cfg.rows {
      ScrollDownOk(s.cfg.width, s.wideDrawn, s.grid, s.top, s.bot, s.cfg.cols);
    }
    hide RowOk, ScrollDown;
  }

  lemma PutRuneOk(width: Rune -> Width, wide: bool, row: Row, x: nat, r: Rune, st: Style)
    requires RowOk(width, wide, row) && x < |row| && Drawable(width, r)
    ensures RowOk(width, wide || width(r) == 2, PutRune(row, x, width(r), r, st))
  {
  }

  lemma PutCellInv(s: State, r: Rune)
    requires GridInv(s) && Drawable(s.cfg.width, r)
    ensures GridInv(PutCell(s, r, s.cfg.width(r))) && SameHistory(s, PutCell(s, r, s.cfg.width(r)))
    ensures s.wideDrawn ==> PutCell(s, r, s.cfg.width(r)).wideDrawn
  {
    PutRuneOk(s.cfg.width, s.wideDrawn, s.grid[s.cy], s.cx, r, s.pen);
    WideRowsOk(s.cfg.width, s.wideDrawn, s.wideDrawn || s.cfg.width(r) == 2, s.grid);
    hide RowOk, PutRune;
  }

  lemma TakeWrapInv(s: State)
    requires GridInv(s) && HistInv(s)
    ensures GridInv(TakeWrap(s)) && HistInv(TakeWrap(s)) && Follows(s, TakeWrap(s), 1)
    ensures s.wrap && !TakeWrap(s).panicked ==> TakeWrap(s).cx == 0
    ensures !s.wrap ==> TakeWrap(s) == s
  {
    LineFeedInv(s.(cx := 0));
    LineFeedColumn(s.(cx := 0));
    hide RowOk, LineFeed, HistInv;
    if s.wrap {
      Unwrapped(LineFeed(s.(cx := 0)));
      hide GridInv;
    }
  }

  lemma LineFeedColumn(s: State)
    requires Shape(s)
    ensures LineFeed(s).cx == s.cx
  {
  }

  lemma Unwrapped(s: State)
    requires GridInv(s) && HistInv(s)
    ensures GridInv(s.(wrap := false)) && HistInv(s.(wrap := false))
  {
    hide RowOk;
  }

  lemma FitWidthInv(s: State, w: nat)
    requires GridInv(s) && HistInv(s)
    ensures GridInv(FitWidth(s, w)) && HistInv(FitWidth(s, w)) && Follows(s, FitWidth(s, w), 1)
    ensures s.cx + w <= s.cfg.cols ==> FitWidth(s, w) == s
  {
    LineFeedInv(s.(cx := 0));
    hide RowOk, ScrollUp, AppendHistory;
  }

  /** With two columns or more a rune scrolls out at most one line. */
  lemma DrawInv(s: State, r: Rune)
    requires GridInv(s) && HistInv(s) && 0x20 <= r && IsScalar(r)
    ensures GridInv(Draw(s, r)) && HistInv(Draw(s, r))
    ensures Follows(s, Draw(s, r), if s.cfg.cols >= 2 then 1 else 2)
  {
    hide RowOk, LineFeed, PutCell, TakeWrap, FitWidth;
    var w := s.cfg.width(r);
    if w == 0 {
      return;
    }
    var a := TakeWrap(s);
    TakeWrapInv(s);
    if a.panicked {
      return;
    }
    var b := FitWidth(a, w);
    FitWidthInv(a, w);
    FollowsTransitive(s, a, b, 1, 1);
    if !b.panicked {
      PutCellInv(b, r);
      SameHistoryFollows(b, PutCell(b, r, w));
    }
  }

  lemma EraseSpanOk(width: Rune -> Width, wide: bool, row: Row, lo: nat, hi: nat)
    requires RowOk(width, wide, row) && lo <= hi <= |row|
    ensures RowOk(width, wide, EraseSpan(row, lo, hi))
  {
    forall x | 0 <= x < |row| - 1
      ensures PairOk(width, EraseSpan(row, lo, hi)[x], EraseSpan(row, lo, hi)[x + 1])
    {
      assert PairOk(width, row[x], row[x + 1]);
    }
  }

  lemma EraseLineInv(s: State, mode: nat)
    requires GridInv(s)
    ensures GridInv(EraseLine(s, mode)) && SameHistory(s, EraseLine(s, mode))
    ensures EraseLine(s, mode).wideDrawn == s.wideDrawn
  {
    var row := s.grid[s.cy];
    EraseSpanOk(s.cfg.width, s.wideDrawn, row, s.cx, s.cfg.cols);
    EraseSpanOk(s.cfg.width, s.wideDrawn, row, 0, s.cx + 1);
    EraseSpanOk(s.cfg.width, s.wideDrawn, row, 0, s.cfg.cols);
    hide RowOk, EraseSpan;
  }

  lemma BlankRowsInv(s: State, lo: nat, hi: nat)
    requires GridInv(s) && lo <= hi <= s.cfg.rows
    ensures GridInv(s.(grid := BlankRows(s.grid, lo, hi, s.cfg.cols)))
  {
    BlankLineOk(s.cfg.width, s.wideDrawn, s.cfg.cols);
    hide RowOk;
  }

  lemma EraseBelowInv(s: State)
    requires Shape(s) && GridInv(s)
    ensures GridInv(EraseDisplay(s, 0)) && SameHistory(s, EraseDisplay(s, 0))
    ensures EraseDisplay(s, 0).wideDrawn == s.wideDrawn
  {
    hide RowOk, GridInv, BlankRows, EraseLine;
    EraseLineInv(s, 0);
    BlankRowsInv(EraseLine(s, 0), s.cy + 1, s.cfg.rows);
  }

  lemma EraseAboveInv(s: State)
    requires Shape(s) && GridInv(s)
    ensures GridInv(EraseDisplay(s, 1)) && SameHistory(s, EraseDisplay(s, 1))
    ensures EraseDisplay(s, 1).wideDrawn == s.wideDrawn
  {
    hide RowOk, GridInv, BlankRows, EraseLine;
    BlankRowsInv(s, 0, s.cy);
    EraseLineInv(s.(grid := BlankRows(s.grid, 0, s.cy, s.cfg.cols)), 1);
  }

  lemma EraseAllInv(s: State, mode: nat)
    requires GridInv(s) && HistInv(s) && mode >= 2
    ensures GridInv(EraseDisplay(s, mode)) && HistInv(EraseDisplay(s, mode))
    ensures Follows(s, EraseDisplay(s, mode), 0)
  {
    BlankLineOk(s.cfg.width, s.wideDrawn, s.cfg.cols);
    hide RowOk;
  }

  lemma OnlyModeThree(s: State, mode: nat)
    requires Shape(s)
    ensures mode != 3 ==> SameHistory(s, EraseDisplay(s, mode))
    ensures mode == 3 ==> EraseDisplay(s, mode).past.lines == [] && EraseDisplay(s, mode).past.log == s.past.log
  {
  }

  lemma EraseDisplayInv(s: State, mode: nat)
    requires Shape(s) && GridInv(s) && HistInv(s)
    ensures GridInv(EraseDisplay(s, mode)) && HistInv(EraseDisplay(s, mode))
    ensures Follows(s, EraseDisplay(s, mode), 0)
    ensures mode != 3 ==> SameHistory(s, EraseDisplay(s, mode))
    ensures mode == 3 ==> EraseDisplay(s, mode).past.lines == [] && EraseDisplay(s, mode).past.log == s.past.log
  {
    OnlyModeThree(s, mode);
    hide RowOk, GridInv, HistInv, Follows, EraseDisplay;
    if mode == 0 {
      EraseBelowInv(s);
      SameHistoryFollows(s, EraseDisplay(s, 0));
    } else if mode == 1 {
      EraseAboveInv(s);
      SameHistoryFollows(s, EraseDisplay(s, 1));
    } else {
      EraseAllInv(s, mode);
    }
  }

  lemma CsiDispatchInv(s: State, final: Byte)
    requires Inv(s)
    ensures Inv(CsiDispatch(s, final)) && Follows(s, CsiDispatch(s, final), 0)
  {
    hide RowOk, GridInv, Follows, Params, EraseDisplay, EraseLine, CursorEffect;
    var ps := Params(s.input.parm);
    var t := CsiEffect(s, ps, final);
    if final == 0x4a {
      EraseDisplayInv(s, if ps == [] then 0 else ps[0]);
    } else if final == 0x4b {
      EraseLineInv(s, if ps == [] then 0 else ps[0]);
      SameHistoryFollows(s, t);
    } else {
      CursorCsiInv(s, ps, final);
    }
    assert Inv(t) && Follows(s, t, 0);
    AfterUnmoved(s, t, CsiDispatch(s, final), 0);
  }

  lemma CursorCsiInv(s: State, ps: seq<nat>, final: Byte)
    requires Inv(s) && final != 0x4a && final != 0x4b
    ensures Inv(CsiEffect(s, ps, final)) && Follows(s, CsiEffect(s, ps, final), 0)
  {
    hide RowOk, GridInv, HistInv, Follows, CursorEffect;
    Unmoved(s, CsiEffect(s, ps, final));
  }

  /** `Unmoved` at the end of a longer step. */
  lemma AfterUnmoved(s: State, t: State, u: State, k: nat)
    requires Inv(s) && Inv(t) && Follows(s, t, k)
    requires u.grid == t.grid && SameHistory(t, u) && SameSetting(t, u) && u.wideDrawn == t.wideDrawn
    requires u.cx < u.cfg.cols && u.cy < u.cfg.rows && ParmOk(u)
    ensures Inv(u) && Follows(s, u, k)
  {
    Unmoved(t, u);
    FollowsTransitive(s, t, u, k, 0);
  }

  lemma LineFeedKeeps(s: State)
    requires Inv(s)
    ensures Inv(LineFeed(s)) && Follows(s, LineFeed(s), 1)
  {
    LineFeedInv(s);
    hide RowOk, LineFeed;
  }

  /** A carriage return or parser change before a line feed. */
  lemma UnmovedThenLineFeed(s: State, t: State)
    requires Inv(s) && t.grid == s.grid && SameHistory(s, t) && SameSetting(s, t)
    requires t.wideDrawn == s.wideDrawn
    requires t.cx < t.cfg.cols && t.cy < t.cfg.rows && ParmOk(t)
    ensures Inv(LineFeed(t)) && Follows(s, LineFeed(t), 1)
  {
    hide RowOk, LineFeed;
    Unmoved(s, t);
    LineFeedKeeps(t);
    FollowsTransitive(s, t, LineFeed(t), 0, 1);
  }

  lemma GroundControlInv(s: State, c: Byte)
    requires Inv(s)
    ensures Inv(GroundControl(s, c)) && Follows(s, GroundControl(s, c), 1)
  {
    hide RowOk, GridInv, HistInv, Follows, LineFeed;
    var t := GroundControl(s, c);
    if c == 0x0a {
      LineFeedKeeps(s);
      AfterUnmoved(s, LineFeed(s), t, 1);
    } else {
      Unmoved(s, t);
      assert Follows(s, t, 1) by { FollowsMore(s, t, 0, 1); }
    }
  }

  lemma FollowsMore(s: State, t: State, k: nat, j: nat)
    requires Follows(s, t, k) && k <= j
    ensures Follows(s, t, j)
  {
  }

  lemma EscapeByteInv(s: State, c: Byte)
    requires Inv(s)
    ensures Inv(EscapeByte(s, c)) && Follows(s, EscapeByte(s, c), 1)
  {
    hide RowOk, GridInv, HistInv, Follows, LineFeed, ReverseIndex;
    var g := InState(s, Ground);
    var t := EscapeByte(s, c);
    if c == 0x44 {
      UnmovedThenLineFeed(s, g);
    } else if c == 0x45 {
      UnmovedThenLineFeed(s, g.(cx := 0));
    } else if c == 0x4d {
      Unmoved(s, g);
      ReverseIndexKeeps(g);
      FollowsTransitive(s, g, t, 0, 1);
    } else {
      Unmoved(s, t);
      FollowsMore(s, t, 0, 1);
    }
  }

  lemma ReverseIndexKeeps(s: State)
    requires Inv(s)
    ensures Inv(ReverseIndex(s)) && Follows(s, ReverseIndex(s), 1)
  {
    ReverseIndexInv(s);
    SameHistoryFollows(s, ReverseIndex(s));
    hide RowOk, ReverseIndex;
  }

  lemma CsiByteInv(s: State, c: Byte)
    requires Inv(s)
    ensures Inv(CsiByte(s, c)) && Follows(s, CsiByte(s, c), 1)
  {
    hide RowOk, GridInv, HistInv, Follows, CsiDispatch;
    var t := CsiByte(s, c);
    if c == 0x3f || c == 0x3e || c == 0x3d || IsParameterByte(c) {
      Unmoved(s, t);
    } else {
      CsiDispatchInv(s, c);
    }
    FollowsMore(s, t, 0, 1);
  }

  lemma ControlByteInv(s: State, c: Byte)
    requires Inv(s)
    ensures Inv(ControlByte(s, c)) && Follows(s, ControlByte(s, c), 1)
  {
    hide RowOk, GridInv, HistInv, Follows, CsiByte, GroundControl, EscapeByte;
    match s.input.parser
    case Ground => GroundControlInv(s, c);
    case Escape => EscapeByteInv(s, c);
    case Csi => CsiByteInv(s, c);
    case Osc => Unmoved(s, OscByte(s, c)); FollowsMore(s, OscByte(s, c), 0, 1);
    case OscEscape => Unmoved(s, InState(s, Ground)); FollowsMore(s, InState(s, Ground), 0, 1);
  }

  lemma DrawSequenceInv(s: State, bs: seq<Byte>)
    requires Inv(s) && |bs| >= 1 && |bs| == SequenceLength(bs[0]) && bs[0] >= 0x20
    ensures Inv(DrawSequence(s, bs)) && Follows(s, DrawSequence(s, bs), if s.cfg.cols >= 2 then |bs| else 2 * |bs|)
  {
    DrawInv(s, if |bs| == 1 then bs[0] else DecodeFirst(bs));
    hide RowOk, Draw;
  }

  // ---- Whole runs ----

  lemma PendInv(s: State, p: seq<Byte>)
    requires Inv(s)
    ensures Inv(Carrying(s, p)) && Follows(s, Carrying(s, p), 0)
  {
    hide RowOk;
  }

  /** Over any bytes the model stays well formed; with two columns or more no
      byte scrolls out more than one line. */
  lemma {:induction false} RunInv(s: State, p: seq<Byte>)
    requires Inv(s) && PendOk(s) && s.input.pend == []
    ensures Inv(Run(s, p)) && PendOk(Run(s, p))
    ensures Follows(s, Run(s, p), if s.cfg.cols >= 2 then |p| else 2 * |p|)
    decreases |p|
  {
    hide RowOk, GridInv, HistInv, DrawSequence, ControlByte;
    if p == [] || s.panicked {
    } else if IsText(s, p[0]) {
      var n := SequenceLength(p[0]);
      if n == 0 {
        RunInv(s, p[1..]);
      } else if n <= |p| {
        var t := DrawSequence(s, p[..n]);
        DrawSequenceInv(s, p[..n]);
        RunInv(t, p[n..]);
      } else {
        PendInv(s, p);
      }
    } else {
      ControlByteInv(s, p[0]);
      RunInv(ControlByte(s, p[0]), p[1..]);
    }
  }

  /** The invariant over one call of Feed, and how many lines it can scroll out:
      at most one per byte read or carried when there are two columns or more. */
  lemma FeedInv(s: State, p: seq<Byte>)
    requires Inv(s) && PendOk(s)
    ensures Inv(Feed(s, p)) && PendOk(Feed(s, p))
    ensures Follows(s, Feed(s, p), if s.cfg.cols >= 2 then |p| + 3 else 2 * (|p| + 3))
  {
    if !s.panicked {
      RunInv(Carrying(s, []), s.input.pend + p);
    }
    hide RowOk, Run;
  }

  lemma NewModelInv(width: Rune -> Width, cols: nat, rows: nat)
    requires cols >= 1 && rows >= 1
    ensures Inv(NewModel(width, cols, rows)) && PendOk(NewModel(width, cols, rows))
  {
    BlankLineOk(width, false, cols);
    hide RowOk;
  }
}
