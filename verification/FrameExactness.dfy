/** Which viewports a frame reproduces: exactly those whose rows are reproducible and whose
    colours can be printed. */
module FrameExactness {
  import opened Bytes
  import opened Utf8
  import opened Terminal
  import opened TerminalInvariants
  import opened TerminalTheorems
  import opened ControlSequences
  import opened Frame
  import opened FrameRoundTrip
  import opened Scroll
  import opened ScrollTheorems

  // ---- What every row of a receiver keeps, whatever is printed ----

  /** A wide rune has its continuation cell, unless a narrow rune in the last column took its
      place (or there is only one column); a continuation cell has its wide rune. */
  ghost predicate WeakRow(width: Rune -> Width, row: Row, vcols: nat) {
    forall x | 0 <= x < vcols :: WeakAt(width, row, vcols, x)
  }

  ghost predicate WeakAt(width: Rune -> Width, row: Row, vcols: nat, x: nat) {
    && (IsWide(width, CellAt(row, x)) ==>
          (x + 1 < vcols && CellAt(row, x + 1).cont) || NarrowLast(width, row, vcols, x) || vcols == 1)
    && (CellAt(row, x).cont ==> x > 0 && IsWide(width, CellAt(row, x - 1)))
  }

  ghost predicate BlankFrom(row: Row, x: nat) {
    forall k | x <= k < |row| :: row[k] == EMPTY
  }

  /** A receiver at any point of a frame: full margins, weak rows, blank below the cursor. */
  ghost predicate Paper(s: State) {
    && Ready(s) && s.top == 0 && s.bot == s.cfg.rows - 1 && s.cfg.width(0x20) == 1
    && (forall y | 0 <= y < s.cfg.rows :: WeakRow(s.cfg.width, s.grid[y], s.cfg.cols))
    && (forall y | s.cy < y < s.cfg.rows :: s.grid[y] == BlankLine(s.cfg.cols))
  }

  /** Between two cells: blank from the cursor on, or a full line. */
  ghost predicate Between(s: State) {
    Paper(s) && if s.wrap then s.cx + 1 == s.cfg.cols else BlankFrom(s.grid[s.cy], s.cx)
  }

  /** As `Between`, or on a full line whose pending wrap was dropped. */
  ghost predicate Before(s: State) {
    Paper(s) && (s.cx + 1 == s.cfg.cols || (!s.wrap && BlankFrom(s.grid[s.cy], s.cx)))
  }

  /** At the first column of a blank line. */
  ghost predicate AtStart(s: State) {
    Between(s) && s.cx == 0 && !s.wrap
  }

  /** The cursor never goes up, and scrolled-out lines only get more. */
  ghost predicate Later(s: State, t: State) {
    t.cfg == s.cfg && t.input.pend == s.input.pend && s.cy <= t.cy && |s.past.log| <= |t.past.log|
  }

  lemma BlankIsWeak(width: Rune -> Width, cols: nat)
    ensures WeakRow(width, BlankLine(cols), cols) && BlankFrom(BlankLine(cols), 0)
  {
    forall x | 0 <= x < cols
      ensures WeakAt(width, BlankLine(cols), cols, x)
    {
    }
  }

  /** A rune written in front of blanks, or over the last column. */
  lemma PutKeepsWeak(width: Rune -> Width, row: Row, x: nat, r: Rune, st: Style)
    requires WeakRow(width, row, |row|) && Drawable(width, r) && x < |row|
    requires (BlankFrom(row, x) && x + width(r) <= |row|) || (x + 1 == |row| && width(r) == 1) || |row| == 1
    ensures WeakRow(width, PutRune(row, x, width(r), r, st), |row|)
    ensures BlankFrom(row, x) ==> BlankFrom(PutRune(row, x, width(r), r, st), x + width(r))
  {
    var out := PutRune(row, x, width(r), r, st);
    forall k | 0 <= k < |row|
      ensures WeakAt(width, out, |row|, k)
    {
      assert WeakAt(width, row, |row|, k);
      assert k + 1 < |row| ==> WeakAt(width, row, |row|, k + 1);
    }
  }

  /** Going to the first column of the next line. */
  function NextLine(s: State): State
    requires Shape(s)
  {
    LineFeed(s.(cx := 0, wrap := false))
  }

  lemma NextLineStarts(s: State)
    requires Paper(s)
    ensures var t := NextLine(s);
      && AtStart(t) && Later(s, t) && t.grid[t.cy] == BlankLine(s.cfg.cols)
      && t == s.(cx := 0, wrap := false, cy := t.cy, grid := t.grid, past := t.past)
      && t.cy == (if s.cy + 1 < s.cfg.rows then s.cy + 1 else s.cy)
      && (s.cy + 1 < s.cfg.rows ==> t.grid == s.grid && t.past == s.past)
      && (s.cy + 1 == s.cfg.rows ==> |t.past.log| > |s.past.log|)
      && (s.cy + 1 == s.cfg.rows ==> forall y | 0 <= y < s.cfg.rows - 1 :: t.grid[y] == s.grid[y + 1])
  {
    hide WeakRow;
    BlankIsWeak(s.cfg.width, s.cfg.cols);
  }

  lemma PutKeeps(s: State, r: Rune)
    requires Paper(s) && !s.wrap && Drawable(s.cfg.width, r)
    requires (BlankFrom(s.grid[s.cy], s.cx) && s.cx + s.cfg.width(r) <= s.cfg.cols)
             || (s.cx + 1 == s.cfg.cols && (s.cfg.width(r) == 1 || s.cfg.cols == 1))
    ensures var t := PutCell(s, r, s.cfg.width(r)); Between(t) && Later(s, t) && t.cy == s.cy && t.past == s.past
  {
    hide WeakRow;
    PutKeepsWeak(s.cfg.width, s.grid[s.cy], s.cx, r, s.pen);
    hide PutRune;
  }

  lemma DrawKeeps(s: State, r: Rune)
    requires Before(s) && Drawable(s.cfg.width, r)
    ensures Between(Draw(s, r)) && Later(s, Draw(s, r))
  {
    hide Paper, PutCell, LineFeed, BlankFrom;
    var w := s.cfg.width(r);
    PaperShape(s);
    NextLineStarts(s);
    var a := TakeWrap(s);
    WrapIsNextLine(s);
    PaperShape(a);
    assert Before(a) && !a.wrap;
    NextLineStarts(a);
    var b := FitWidth(a, w);
    FitIsNextLine(a, w);
    PutKeeps(b, r);
  }

  lemma PaperShape(s: State)
    requires Paper(s)
    ensures Shape(s) && !s.panicked && s.cfg.cols >= 1
  {
  }

  lemma WrapIsNextLine(s: State)
    requires Paper(s)
    ensures s.wrap ==> TakeWrap(s) == NextLine(s)
  {
  }

  lemma FitIsNextLine(s: State, w: nat)
    requires Paper(s) && !s.wrap
    ensures s.cx + w > s.cfg.cols ==> FitWidth(s, w) == NextLine(s)
  {
  }

  // ---- Printing any row ----

  /** The cells x..stop of a row; `first` and `cur` as for RowBytes. */
  function CellsBytes(row: Row, x: nat, stop: nat, first: bool, cur: Style): seq<Byte>
    requires x <= stop
    decreases stop - x
  {
    if x == stop then []
    else
      var c := CellAt(row, x);
      if c.cont then CellsBytes(row, x + 1, stop, first, cur)
      else
        var st := PrintedStyle(c);
        (if first || st != cur then StyleBytes(st) else []) + Encode(PrintedRune(c))
        + CellsBytes(row, x + 1, stop, false, st)
  }

  /** Whether nothing was printed yet, and the style in force, after the cells x..stop. */
  function StyleAfter(row: Row, x: nat, stop: nat, first: bool, cur: Style): (bool, Style)
    requires x <= stop
    decreases stop - x
  {
    if x == stop then (first, cur)
    else
      var c := CellAt(row, x);
      if c.cont then StyleAfter(row, x + 1, stop, first, cur)
      else StyleAfter(row, x + 1, stop, false, PrintedStyle(c))
  }

  lemma {:induction false} RowSplits(row: Row, x: nat, stop: nat, vcols: nat, first: bool, cur: Style)
    requires x <= stop <= vcols
    ensures var a := StyleAfter(row, x, stop, first, cur);
      RowBytes(row, x, vcols, first, cur) == CellsBytes(row, x, stop, first, cur) + RowBytes(row, stop, vcols, a.0, a.1)
    decreases stop - x
  {
    hide SgrBytes, StyleBytes, Encode;
    if x == stop {
      assert RowBytes(row, x, vcols, first, cur) == [] + RowBytes(row, x, vcols, first, cur);
    } else {
      var c := CellAt(row, x);
      var st := PrintedStyle(c);
      if c.cont {
        RowSplits(row, x + 1, stop, vcols, first, cur);
      } else {
        RowSplits(row, x + 1, stop, vcols, false, st);
        var head := (if first || st != cur then StyleBytes(st) else []) + Encode(PrintedRune(c));
        var a := StyleAfter(row, x + 1, stop, false, st);
        var mid, tail := CellsBytes(row, x + 1, stop, false, st), RowBytes(row, stop, vcols, a.0, a.1);
        assert head + (mid + tail) == (head + mid) + tail;
      }
    }
  }

  /** One cell, wherever the cursor is. */
  lemma PrintAny(s: State, c: Cell, styled: bool, rest: seq<Byte>) returns (u: State)
    requires Between(s) && !c.cont && Drawable(s.cfg.width, PrintedRune(c))
    ensures Between(u) && Later(s, u)
    ensures Run(s, (if styled then StyleBytes(PrintedStyle(c)) else []) + Encode(PrintedRune(c)) + rest) == Run(u, rest)
  {
    hide Run, StyleBytes, Encode, WeakRow, BlankFrom, Draw, SeenStyle;
    var r := PrintedRune(c);
    var st := PrintedStyle(c);
    var p := s;
    if styled {
      assert StyleBytes(st) + Encode(r) + rest == StyleBytes(st) + (Encode(r) + rest);
      p := RunStyle(s, st, Encode(r) + rest);
    } else {
      assert [] + Encode(r) + rest == Encode(r) + rest;
    }
    assert Before(p);
    RunDraw(p, r, rest);
    DrawKeeps(p, r);
    u := Draw(p, r);
  }

  lemma CellDraws(width: Rune -> Width, wide: bool, row: Row, x: nat)
    requires RowOk(width, wide, row) && width(0x20) == 1
    ensures !CellAt(row, x).cont ==> Drawable(width, PrintedRune(CellAt(row, x)))
  {
    assert x < |row| ==> CellOk(width, wide, row[x]);
  }

  lemma {:induction false} PrintCells(s: State, wide: bool, row: Row, x: nat, stop: nat, first: bool, cur: Style,
                                      rest: seq<Byte>) returns (u: State)
    requires Between(s) && RowOk(s.cfg.width, wide, row) && x <= stop
    ensures Between(u) && Later(s, u)
    ensures Run(s, CellsBytes(row, x, stop, first, cur) + rest) == Run(u, rest)
    decreases stop - x
  {
    hide Run, StyleBytes, Encode, RowOk, Between;
    assert s.cfg.width(0x20) == 1 by { BetweenSpace(s); }
    var c := CellAt(row, x);
    if x == stop {
      u := s;
      assert [] + rest == rest;
    } else if c.cont {
      u := PrintCells(s, wide, row, x + 1, stop, first, cur, rest);
    } else {
      var st := PrintedStyle(c);
      var styled := first || st != cur;
      CellDraws(s.cfg.width, wide, row, x);
      var style, after := if styled then StyleBytes(st) else [], CellsBytes(row, x + 1, stop, false, st);
      assert CellsBytes(row, x, stop, first, cur) + rest == style + Encode(PrintedRune(c)) + (after + rest);
      var p := PrintAny(s, c, styled, after + rest);
      u := PrintCells(p, wide, row, x + 1, stop, false, st, rest);
    }
  }

  lemma BetweenSpace(s: State)
    requires Between(s)
    ensures s.cfg.width(0x20) == 1 && Paper(s)
  {
  }

  /** The reset at the end of a row. */
  lemma PrintReset(s: State, rest: seq<Byte>) returns (t: State)
    requires Paper(s)
    ensures Paper(t) && Later(s, t) && t == s.(pen := PLAIN, wrap := false, input := t.input)
    ensures Run(s, SgrBytes([0]) + rest) == Run(t, rest)
  {
    hide Run, SgrBytes, WeakRow;
    RunSgr(s, [0], rest);
    SgrFlag(s.pen, 0);
    t := AfterSgr(s, [0]);
  }

  lemma PrintRow(s: State, wide: bool, row: Row, rest: seq<Byte>) returns (t: State)
    requires Between(s) && RowOk(s.cfg.width, wide, row)
    ensures Paper(t) && Later(s, t)
    ensures Run(s, RowBytes(row, 0, s.cfg.cols, true, PLAIN) + rest) == Run(t, rest)
  {
    hide Run, SgrBytes, RowOk, Paper, CellsBytes;
    var cells := CellsBytes(row, 0, s.cfg.cols, true, PLAIN);
    RowSplits(row, 0, s.cfg.cols, s.cfg.cols, true, PLAIN);
    assert cells + SgrBytes([0]) + rest == cells + (SgrBytes([0]) + rest);
    var u := PrintCells(s, wide, row, 0, s.cfg.cols, true, PLAIN, SgrBytes([0]) + rest);
    t := PrintReset(u, rest);
  }

  /** CR LF, whatever the line. */
  lemma PrintNewline(s: State, rest: seq<Byte>)
    requires Ready(s) && s.top == 0 && s.bot == s.cfg.rows - 1
    ensures Ready(NextLine(s)) && Run(s, NEWLINE + rest) == Run(NextLine(s), rest)
  {
    var u := s.(cx := 0, wrap := false);
    MovedShape(s, u);
    hide Shape, Run, ScrollUp, Push;
    assert NEWLINE + rest == [0x0d] + ([0x0a] + rest);
    RunControl(s, 0x0d, [0x0a] + rest);
    RunControl(u, 0x0a, rest);
  }

  /** From the start of row `i` to the start of row `k`. */
  lemma {:induction false} PrintUpTo(s: State, wide: bool, rows: seq<Row>, i: nat, k: nat, rest: seq<Byte>)
    returns (t: State)
    requires AtStart(s) && i <= s.cy && i <= k < |rows| <= s.cfg.rows
    requires forall j | 0 <= j < |rows| :: RowOk(s.cfg.width, wide, rows[j])
    ensures AtStart(t) && Later(s, t) && k <= t.cy
    ensures Run(s, RowsBytes(rows, i, s.cfg.cols) + rest) == Run(t, RowsBytes(rows, k, s.cfg.cols) + rest)
    decreases k - i
  {
    hide Run, RowOk, RowBytes, Paper, NextLine;
    if i == k {
      t := s;
    } else {
      var vcols := s.cfg.cols;
      var after := RowsBytes(rows, i + 1, vcols) + rest;
      assert RowsBytes(rows, i, vcols) + rest == RowBytes(rows[i], 0, vcols, true, PLAIN) + (NEWLINE + after);
      var u := PrintRow(s, wide, rows[i], NEWLINE + after);
      PaperReady(u);
      PrintNewline(u, after);
      NextLineStarts(u);
      t := PrintUpTo(NextLine(u), wide, rows, i + 1, k, rest);
    }
  }

  lemma PaperReady(s: State)
    requires Paper(s)
    ensures Ready(s) && s.top == 0 && s.bot == s.cfg.rows - 1 && s.cy < s.cfg.rows && Shape(s)
  {
  }

  /** All rows from row `i` on. */
  lemma PrintRows(s: State, wide: bool, rows: seq<Row>, i: nat, rest: seq<Byte>) returns (t: State)
    requires AtStart(s) && i <= s.cy && i < |rows| <= s.cfg.rows
    requires forall j | 0 <= j < |rows| :: RowOk(s.cfg.width, wide, rows[j])
    ensures Paper(t) && Later(s, t)
    ensures Run(s, RowsBytes(rows, i, s.cfg.cols) + rest) == Run(t, rest)
  {
    hide Run, RowOk, RowBytes, Paper;
    var k := |rows| - 1;
    var u := PrintUpTo(s, wide, rows, i, k, rest);
    var text := RowBytes(rows[k], 0, s.cfg.cols, true, PLAIN);
    assert RowsBytes(rows, k, s.cfg.cols) == text + [] + [] == text;
    t := PrintRow(u, wide, rows[k], rest);
  }

  // ---- A row that spills ----

  /** A weak row that is not reproducible ends in a wide rune and a narrow one in its style. */
  lemma SpillsAtEnd(width: Rune -> Width, row: Row, vcols: nat)
    requires vcols >= 2 && WeakRow(width, row, vcols) && !ReproducibleRow(width, row, vcols)
    ensures IsWide(width, CellAt(row, vcols - 2)) && NarrowLast(width, row, vcols, vcols - 2)
    ensures PrintedStyle(CellAt(row, vcols - 1)) == CellAt(row, vcols - 2).st
  {
    var x :| 0 <= x < vcols && !ReproducibleAt(width, row, vcols, x);
    assert WeakAt(width, row, vcols, x);
  }

  /** The line such a row leaves behind before its last rune goes to the next line. */
  function Cut(row: Row, vcols: nat): (out: Row)
    requires vcols >= 2
    ensures |out| == vcols
    ensures forall x | 0 <= x < vcols ::
      out[x] == if x == vcols - 1 then Cell(0, true, CellAt(row, vcols - 2).st) else CellAt(row, x)
  {
    seq(vcols, x requires 0 <= x < vcols =>
      if x == vcols - 1 then Cell(0, true, CellAt(row, vcols - 2).st) else CellAt(row, x))
  }

  lemma CutIsReproducible(width: Rune -> Width, wide: bool, row: Row, vcols: nat)
    requires vcols >= 2 && WeakRow(width, row, vcols) && RowOk(width, wide, row)
    requires IsWide(width, CellAt(row, vcols - 2))
    ensures RowOk(width, wide, Cut(row, vcols)) && ReproducibleRow(width, Cut(row, vcols), vcols)
  {
    var out := Cut(row, vcols);
    assert CellOk(width, wide, CellAt(row, vcols - 2));
    forall x | 0 <= x < vcols
      ensures CellOk(width, wide, out[x]) && ReproducibleAt(width, out, vcols, x)
    {
      assert x < |row| ==> CellOk(width, wide, row[x]);
      assert WeakAt(width, row, vcols, x);
    }
    forall x | 0 <= x < vcols - 1
      ensures PairOk(width, out[x], out[x + 1])
    {
      assert x + 1 < |row| ==> PairOk(width, row[x], row[x + 1]);
    }
  }

  lemma {:induction false} SameCells(row: Row, other: Row, x: nat, stop: nat, first: bool, cur: Style)
    requires x <= stop && forall k | x <= k < stop :: CellAt(row, k) == CellAt(other, k)
    ensures CellsBytes(row, x, stop, first, cur) == CellsBytes(other, x, stop, first, cur)
    decreases stop - x
  {
    hide StyleBytes, Encode;
    if x < stop {
      var c := CellAt(row, x);
      if c.cont {
        SameCells(row, other, x + 1, stop, first, cur);
      } else {
        SameCells(row, other, x + 1, stop, false, PrintedStyle(c));
      }
    }
  }

  lemma {:induction false} StyleOfLast(row: Row, x: nat, stop: nat, first: bool, cur: Style)
    requires x < stop && !CellAt(row, stop - 1).cont
    ensures StyleAfter(row, x, stop, first, cur) == (false, PrintedStyle(CellAt(row, stop - 1)))
    decreases stop - x
  {
    var c := CellAt(row, x);
    if x + 1 < stop {
      if c.cont {
        StyleOfLast(row, x + 1, stop, first, cur);
      } else {
        StyleOfLast(row, x + 1, stop, false, PrintedStyle(c));
      }
    } else {
      assert StyleAfter(row, stop, stop, false, PrintedStyle(c)) == (false, PrintedStyle(c));
    }
  }

  /** Bytes that leave nothing carried can be run on their own. */
  lemma RunOn(s: State, a: seq<Byte>, b: seq<Byte>)
    requires Ready(s) && s.input.pend == [] && Ready(Run(s, a)) && Run(s, a).input.pend == []
    ensures Run(s, a + b) == Run(Run(s, a), b)
  {
    RunSplit(s, a, b);
    hide Run;
    var u := Run(s, a);
    assert Carrying(u, []) == u && [] + b == b;
  }

  /** All of a spilling row but its last rune: the line is cut, and a wrap is pending. */
  lemma PrintCut(s: State, wide: bool, row: Row) returns (u: State)
    requires AtStart(s) && s.input.pend == [] && s.cfg.cols >= 2 && RowOk(s.cfg.width, wide, row)
    requires WeakRow(s.cfg.width, row, s.cfg.cols) && IsWide(s.cfg.width, CellAt(row, s.cfg.cols - 2))
    ensures Between(u) && Later(s, u) && u.wrap && u.cy == s.cy
    ensures u.grid[u.cy] == Painted(Cut(row, s.cfg.cols), s.cfg.cols)
    ensures Shape(s) && ParmOk(s) && u == Run(s, CellsBytes(row, 0, s.cfg.cols - 1, true, PLAIN))
  {
    hide Run, SgrBytes, StyleBytes, Encode, RowOk, WeakRow, ReproducibleRow, Cut, Painted;
    var vcols := s.cfg.cols;
    var n := vcols - 1;
    var cut := Cut(row, vcols);
    var cells := CellsBytes(row, 0, n, true, PLAIN);
    u := PrintCells(s, wide, row, 0, n, true, PLAIN, []);
    assert cells + [] == cells;
    RunNothing(u);
    CutIsReproducible(s.cfg.width, wide, row, vcols);
    CutBytes(row, vcols);
    assert AtColumn(s, cut, 0) by { FirstCell(s.cfg.width, cut, vcols); }
    var t := PaintFrom(s, wide, cut, 0, true, PLAIN, []);
    assert cells + SgrBytes([0]) + [] == cells + SgrBytes([0]);
    RunNothing(t);
    RunOn(s, cells, SgrBytes([0]));
    assert SgrBytes([0]) + [] == SgrBytes([0]);
    RunSgr(u, [0], []);
    RunNothing(AfterSgr(u, [0]));
    assert t == AfterSgr(u, [0]);
    assert PaintedRow(s, cut, 0) == Painted(cut, vcols);
    LastIsCont(row, vcols);
  }

  lemma LastIsCont(row: Row, vcols: nat)
    requires vcols >= 2
    ensures Painted(Cut(row, vcols), vcols)[vcols - 1].cont
  {
  }

  lemma CutBytes(row: Row, vcols: nat)
    requires vcols >= 2
    ensures RowBytes(Cut(row, vcols), 0, vcols, true, PLAIN)
         == CellsBytes(row, 0, vcols - 1, true, PLAIN) + SgrBytes([0])
  {
    hide SgrBytes, StyleBytes, Encode;
    var cut, n := Cut(row, vcols), vcols - 1;
    SameCells(row, cut, 0, n, true, PLAIN);
    RowSplits(cut, 0, n, vcols, true, PLAIN);
  }

  /** The last rune is printed without a style of its own. */
  lemma SpillBytes(row: Row, vcols: nat, rest: seq<Byte>)
    requires vcols >= 2 && !CellAt(row, vcols - 2).cont && !CellAt(row, vcols - 1).cont
    requires PrintedStyle(CellAt(row, vcols - 1)) == PrintedStyle(CellAt(row, vcols - 2))
    ensures var r := PrintedRune(CellAt(row, vcols - 1));
      RowBytes(row, 0, vcols, true, PLAIN) + rest
      == CellsBytes(row, 0, vcols - 1, true, PLAIN) + (Encode(r) + (SgrBytes([0]) + rest))
  {
    hide SgrBytes, StyleBytes, Encode;
    var n := vcols - 1;
    var c := CellAt(row, n);
    RowSplits(row, 0, n, vcols, true, PLAIN);
    StyleOfLast(row, 0, n, true, PLAIN);
    assert RowBytes(row, n, vcols, false, PrintedStyle(c)) == [] + Encode(PrintedRune(c)) + SgrBytes([0]);
  }

  /** A spilling row takes two lines: the cut line, and one that holds only the last rune. */
  lemma PrintSpill(s: State, wide: bool, row: Row, rest: seq<Byte>) returns (t: State)
    requires AtStart(s) && s.input.pend == [] && s.cfg.cols >= 2 && RowOk(s.cfg.width, wide, row)
    requires WeakRow(s.cfg.width, row, s.cfg.cols) && !ReproducibleRow(s.cfg.width, row, s.cfg.cols)
    ensures Paper(t) && Later(s, t) && Spilled(s.cfg.width, s.cfg.cols, t.grid, t.cy)
    ensures Run(s, RowBytes(row, 0, s.cfg.cols, true, PLAIN) + rest) == Run(t, rest)
  {
    hide Run, SgrBytes, Encode, RowOk, WeakRow, ReproducibleRow, Cut, Painted, Between, Paper, Draw;
    var vcols := s.cfg.cols;
    var n := vcols - 1;
    var c := CellAt(row, n);
    var cells := CellsBytes(row, 0, n, true, PLAIN);
    SpillsAtEnd(s.cfg.width, row, vcols);
    var u := PrintCut(s, wide, row);
    hide RowBytes, CellsBytes;
    var text := Encode(PrintedRune(c)) + (SgrBytes([0]) + rest);
    SpillBytes(row, vcols, rest);
    BetweenReady(s);
    BetweenReady(u);
    RunOn(s, cells, text);
    CellDraws(s.cfg.width, wide, row, n);
    RunDraw(u, PrintedRune(c), SgrBytes([0]) + rest);
    DrawKeeps(u, PrintedRune(c));
    BetweenReady(Draw(u, PrintedRune(c)));
    DrawSpills(u, row, PrintedRune(c));
    t := PrintReset(Draw(u, PrintedRune(c)), rest);
  }

  lemma BetweenReady(s: State)
    requires Between(s)
    ensures Ready(s) && Paper(s) && Before(s) && s.cfg.width(0x20) == 1
  {
  }

  /** On line `y` there is no wide rune in the last two columns; the line above, if still on
      the screen, has one with its continuation cell. */
  ghost predicate Spilled(width: Rune -> Width, cols: nat, grid: seq<Row>, y: nat)
    requires cols >= 2 && y < |grid| && forall k | 0 <= k < |grid| :: |grid[k]| == cols
  {
    && !IsWide(width, grid[y][cols - 2])
    && (y >= 1 ==> IsWide(width, grid[y - 1][cols - 2]) && grid[y - 1][cols - 1].cont)
  }

  lemma DrawSpills(u: State, row: Row, r: Rune)
    requires Between(u) && u.wrap && u.cfg.cols >= 2 && u.cfg.width(r) == 1 && r != 0
    requires u.grid[u.cy] == Painted(Cut(row, u.cfg.cols), u.cfg.cols)
    requires IsWide(u.cfg.width, CellAt(row, u.cfg.cols - 2))
    ensures Shape(Draw(u, r)) && Spilled(u.cfg.width, u.cfg.cols, Draw(u, r).grid, Draw(u, r).cy)
  {
    hide WeakRow, BlankFrom;
    WrapIsNextLine(u);
    NextLineStarts(u);
    var v := NextLine(u);
    hide NextLine, Paper, Ready, Cut, Painted, LineFeed, TakeWrap;
    var t := PutCell(v, r, 1);
    assert Shape(v) && !v.panicked && v.cx == 0 && !v.wrap by { StartReady(v); }
    assert Draw(u, r) == t;
    var line := u.grid[u.cy];
    CutLine(u.cfg.width, row, u.cfg.cols);
    assert v.cy >= 1 ==> t.grid[v.cy - 1] == line;
  }

  lemma StartReady(s: State)
    requires AtStart(s)
    ensures Ready(s) && Shape(s) && !s.panicked && s.cx == 0 && !s.wrap
  {
  }

  lemma CutLine(width: Rune -> Width, row: Row, vcols: nat)
    requires vcols >= 2 && IsWide(width, CellAt(row, vcols - 2))
    ensures var line := Painted(Cut(row, vcols), vcols); IsWide(width, line[vcols - 2]) && line[vcols - 1].cont
  {
  }

  // ---- The last row that spills ----

  ghost predicate Rectangle(grid: seq<Row>, cols: nat) {
    forall y | 0 <= y < |grid| :: |grid[y]| == cols
  }

  /** After row `i`: row `b` spilled, and the rows since then stand in place on consecutive
      lines, `cy - i` lines lower than in the viewport. */
  ghost predicate Shifted(width: Rune -> Width, cols: nat, grid: seq<Row>, cy: nat, rows: seq<Row>, b: nat, i: nat)
    requires cols >= 2 && Rectangle(grid, cols)
  {
    && b <= i <= cy < |grid| && i < |rows|
    && Spilled(width, cols, grid, b + (cy - i))
    && forall j | b < j <= i :: grid[j + (cy - i)] == Painted(rows[j], cols)
  }

  lemma NextLineMoves(s: State)
    requires Ready(s) && s.top == 0 && s.bot == s.cfg.rows - 1
    ensures var v := NextLine(s);
      && Shape(v) && Shape(s) && Rectangle(v.grid, s.cfg.cols) && |v.grid| == |s.grid| == s.cfg.rows
      && s.cy < s.cfg.rows
      && (s.cy + 1 < s.cfg.rows ==> v.cy == s.cy + 1 && v.grid == s.grid && v.past == s.past)
      && (s.cy + 1 == s.cfg.rows ==> v.cy == s.cy && |v.past.log| > |s.past.log|)
      && (s.cy + 1 == s.cfg.rows ==> forall y | 0 <= y < s.cfg.rows - 1 :: v.grid[y] == s.grid[y + 1])
  {
  }

  lemma ShiftedNewline(s: State, rows: seq<Row>, b: nat, i: nat)
    requires Ready(s) && s.top == 0 && s.bot == s.cfg.rows - 1 && s.cfg.cols >= 2 && Rectangle(s.grid, s.cfg.cols)
    requires Shifted(s.cfg.width, s.cfg.cols, s.grid, s.cy, rows, b, i) && i + 1 < |rows| <= s.cfg.rows
    ensures var v := NextLine(s);
      && Shape(v) && Rectangle(v.grid, s.cfg.cols) && v.cfg == s.cfg && i + 1 <= v.cy
      && Spilled(s.cfg.width, s.cfg.cols, v.grid, b + (v.cy - (i + 1)))
      && forall j | b < j <= i :: v.grid[j + (v.cy - (i + 1))] == Painted(rows[j], s.cfg.cols)
  {
    hide Painted, NextLine, Ready, Shape;
    NextLineAt(s);
    NextLineMoves(s);
    var v := NextLine(s);
    if s.cy + 1 == s.cfg.rows {
      var d := s.cy - i;
      forall j | b < j <= i
        ensures v.grid[j + (d - 1)] == Painted(rows[j], s.cfg.cols)
      {
        assert s.grid[j + d] == Painted(rows[j], s.cfg.cols);
      }
    }
  }

  lemma RowInPlace(v: State, t: State, row: Row)
    requires Shape(v) && Rectangle(v.grid, v.cfg.cols) && AfterRow(v, t, row, 0)
    ensures t.grid == v.grid[v.cy := Painted(row, v.cfg.cols)] && t.cy == v.cy < |v.grid|
  {
    hide Painted, Ready;
    assert PaintedRow(v, row, 0) == Painted(row, v.cfg.cols);
  }

  lemma ShiftedRow(width: Rune -> Width, cols: nat, grid: seq<Row>, cy: nat, rows: seq<Row>, b: nat, i: nat)
    requires cols >= 2 && Rectangle(grid, cols) && b <= i && i + 1 <= cy < |grid| && i + 1 < |rows|
    requires Spilled(width, cols, grid, b + (cy - (i + 1)))
    requires forall j | b < j <= i :: grid[j + (cy - (i + 1))] == Painted(rows[j], cols)
    ensures var g := grid[cy := Painted(rows[i + 1], cols)];
      Rectangle(g, cols) && Shifted(width, cols, g, cy, rows, b, i + 1)
  {
    hide Painted;
  }

  lemma {:induction false} PrintRest(s: State, wide: bool, rows: seq<Row>, b: nat, i: nat, rest: seq<Byte>)
    returns (t: State)
    requires Ready(s) && s.top == 0 && s.bot == s.cfg.rows - 1 && s.cfg.cols >= 2 && s.cfg.width(0x20) == 1
    requires Rectangle(s.grid, s.cfg.cols) && |rows| <= s.cfg.rows
    requires Shifted(s.cfg.width, s.cfg.cols, s.grid, s.cy, rows, b, i)
    requires forall j | b < j < |rows| ::
      RowOk(s.cfg.width, wide, rows[j]) && ReproducibleRow(s.cfg.width, rows[j], s.cfg.cols)
    ensures Ready(t) && t.cfg == s.cfg && t.input.pend == s.input.pend && Rectangle(t.grid, s.cfg.cols)
    ensures Shifted(s.cfg.width, s.cfg.cols, t.grid, t.cy, rows, b, |rows| - 1)
    ensures Run(s, (if i + 1 < |rows| then NEWLINE + RowsBytes(rows, i + 1, s.cfg.cols) else []) + rest) == Run(t, rest)
    decreases |rows| - i
  {
    hide Run, RowOk, RowBytes, ReproducibleRow, Shifted, Painted, NextLine, Ready, Spilled;
    var vcols := s.cfg.cols;
    ShiftedInRange(s, rows, b, i);
    if i + 1 == |rows| {
      t := s;
      assert [] + rest == rest;
    } else {
      var v := NextLine(s);
      var row := rows[i + 1];
      var more := (if i + 2 < |rows| then NEWLINE + RowsBytes(rows, i + 2, vcols) else []) + rest;
      var text := RowBytes(row, 0, vcols, true, PLAIN);
      assert NEWLINE + RowsBytes(rows, i + 1, vcols) + rest == NEWLINE + (text + more) by {
        RowsBytesStep(rows, i + 1, vcols);
        var after := if i + 2 < |rows| then NEWLINE + RowsBytes(rows, i + 2, vcols) else [];
        assert NEWLINE + (text + after) + rest == NEWLINE + (text + (after + rest));
      }
      PrintNewline(s, text + more);
      ShiftedNewline(s, rows, b, i);
      NextLineAt(s);
      assert AtColumn(v, row, 0) by { FirstCell(s.cfg.width, row, vcols); }
      var u := PaintFrom(v, wide, row, 0, true, PLAIN, more);
      RowInPlace(v, u, row);
      ShiftedRow(v.cfg.width, vcols, v.grid, v.cy, rows, b, i);
      t := PrintRest(u, wide, rows, b, i + 1, rest);
    }
  }

  lemma ShiftedInRange(s: State, rows: seq<Row>, b: nat, i: nat)
    requires s.cfg.cols >= 2 && Rectangle(s.grid, s.cfg.cols)
    requires Shifted(s.cfg.width, s.cfg.cols, s.grid, s.cy, rows, b, i)
    ensures b <= i <= s.cy && i < |rows|
    ensures Ready(s) ==> Shape(s)
  {
  }

  lemma RowsBytesStep(rows: seq<Row>, i: nat, vcols: nat)
    requires i < |rows|
    ensures RowsBytes(rows, i, vcols) ==
      RowBytes(rows[i], 0, vcols, true, PLAIN) + if i + 1 < |rows| then NEWLINE + RowsBytes(rows, i + 1, vcols) else []
  {
    hide RowBytes;
    var text := RowBytes(rows[i], 0, vcols, true, PLAIN);
    if i + 1 < |rows| {
      assert text + NEWLINE + RowsBytes(rows, i + 1, vcols) == text + (NEWLINE + RowsBytes(rows, i + 1, vcols));
    } else {
      assert text + [] + [] == text + [];
    }
  }

  lemma NextLineAt(s: State)
    requires Ready(s) && s.top == 0 && s.bot == s.cfg.rows - 1
    ensures var v := NextLine(s);
      Ready(v) && v.cx == 0 && !v.wrap && v.cfg == s.cfg && v.top == 0 && v.bot == s.bot && v.input.pend == s.input.pend
  {
    hide Shape;
  }

  /** Rows `i`.., of which `b` is the last that spills. */
  lemma PrintSpilling(s: State, wide: bool, rows: seq<Row>, b: nat, rest: seq<Byte>) returns (t: State)
    requires AtStart(s) && s.input.pend == [] && s.cfg.cols >= 2 && b < |rows| <= s.cfg.rows
    requires forall j | 0 <= j < |rows| :: RowOk(s.cfg.width, wide, rows[j])
    requires WeakRow(s.cfg.width, rows[b], s.cfg.cols) && !ReproducibleRow(s.cfg.width, rows[b], s.cfg.cols)
    requires forall j | b < j < |rows| :: ReproducibleRow(s.cfg.width, rows[j], s.cfg.cols)
    ensures Ready(t) && t.cfg == s.cfg && t.input.pend == [] && Rectangle(t.grid, s.cfg.cols)
    ensures Shifted(s.cfg.width, s.cfg.cols, t.grid, t.cy, rows, b, |rows| - 1)
    ensures Run(s, RowsBytes(rows, 0, s.cfg.cols) + rest) == Run(t, rest)
  {
    hide Run, RowOk, RowBytes, RowsBytes, ReproducibleRow, WeakRow, Paper, Spilled;
    var vcols := s.cfg.cols;
    var u := PrintUpTo(s, wide, rows, 0, b, rest);
    RowsBytesStep(rows, b, vcols);
    var text := RowBytes(rows[b], 0, vcols, true, PLAIN);
    var after := if b + 1 < |rows| then NEWLINE + RowsBytes(rows, b + 1, vcols) else [];
    assert (text + after) + rest == text + (after + rest);
    var v := PrintSpill(u, wide, rows[b], after + rest);
    BetweenReady(u);
    PaperReady(v);
    assert v.cfg.width(0x20) == 1;
    t := PrintRest(v, wide, rows, b, b, rest);
  }

  // ---- It cannot look like the viewport ----

  lemma AlikeCells(width: Rune -> Width, a: Cell, b: Cell)
    requires width(0x20) == 1 && Appears(a) == Appears(b)
    ensures IsWide(width, a) == IsWide(width, b) && a.cont == b.cont
    ensures !a.cont ==> PrintedRune(a) == PrintedRune(b)
  {
  }

  /** The grid looks like the rows. */
  ghost predicate AlikeGrid(grid: seq<Row>, rows: seq<Row>, cols: nat)
    requires Rectangle(grid, cols)
  {
    forall y, x | 0 <= y < |grid| && 0 <= x < cols :: Appears(grid[y][x]) == Appears(CellAt(RowAt(rows, y), x))
  }

  /** Below the spilled row a wide rune in the last two columns would have to be followed by
      another one further down, without end. */
  lemma {:induction false} NoWideBelow(width: Rune -> Width, cols: nat, grid: seq<Row>, cy: nat, rows: seq<Row>,
                                       b: nat, j: nat)
    requires cols >= 2 && Rectangle(grid, cols) && |rows| >= 1 && width(0x20) == 1
    requires Shifted(width, cols, grid, cy, rows, b, |rows| - 1) && AlikeGrid(grid, rows, cols)
    requires cy > |rows| - 1 && b < j < |rows|
    ensures !IsWide(width, CellAt(rows[j], cols - 2))
    decreases |rows| - j
  {
    hide Shifted, AlikeGrid, Painted;
    var y := ShiftedAt(width, cols, grid, cy, rows, b, j);
    var c, below := CellAt(rows[j], cols - 2), CellAt(RowAt(rows, y), cols - 2);
    PaintedWide(width, rows[j], cols);
    AlikeAt(width, grid, rows, cols, y, cols - 2);
    if y < |rows| {
      NoWideBelow(width, cols, grid, cy, rows, b, y);
    }
  }

  lemma ShiftedAt(width: Rune -> Width, cols: nat, grid: seq<Row>, cy: nat, rows: seq<Row>, b: nat, j: nat)
    returns (y: nat)
    requires cols >= 2 && Rectangle(grid, cols) && |rows| >= 1 && cy > |rows| - 1 && b < j < |rows|
    requires Shifted(width, cols, grid, cy, rows, b, |rows| - 1)
    ensures j < y < |grid| && grid[y] == Painted(rows[j], cols)
  {
    y := j + (cy - (|rows| - 1));
  }

  lemma PaintedWide(width: Rune -> Width, row: Row, cols: nat)
    requires cols >= 2 && width(0x20) == 1
    ensures IsWide(width, Painted(row, cols)[cols - 2]) == IsWide(width, CellAt(row, cols - 2))
  {
  }

  lemma AlikeAt(width: Rune -> Width, grid: seq<Row>, rows: seq<Row>, cols: nat, y: nat, x: nat)
    requires Rectangle(grid, cols) && AlikeGrid(grid, rows, cols) && y < |grid| && x < cols && width(0x20) == 1
    ensures IsWide(width, grid[y][x]) == IsWide(width, CellAt(RowAt(rows, y), x))
    ensures grid[y][x].cont == CellAt(RowAt(rows, y), x).cont
  {
    AlikeCells(width, grid[y][x], CellAt(RowAt(rows, y), x));
  }

  lemma SpillShows(width: Rune -> Width, cols: nat, grid: seq<Row>, cy: nat, rows: seq<Row>, b: nat)
    requires cols >= 2 && Rectangle(grid, cols) && |rows| >= 1 && width(0x20) == 1
    requires Shifted(width, cols, grid, cy, rows, b, |rows| - 1)
    requires WeakRow(width, rows[b], cols) && !ReproducibleRow(width, rows[b], cols)
    ensures !AlikeGrid(grid, rows, cols)
  {
    hide AlikeGrid, WeakRow, ReproducibleRow;
    SpillsAtEnd(width, rows[b], cols);
    var d := cy - (|rows| - 1);
    if AlikeGrid(grid, rows, cols) {
      AlikeAt(width, grid, rows, cols, b, cols - 2);
      AlikeAt(width, grid, rows, cols, b, cols - 1);
      if d >= 2 {
        AlikeAt(width, grid, rows, cols, b + d - 1, cols - 2);
        NoWideBelow(width, cols, grid, cy, rows, b, b + d - 1);
      }
    }
  }

  // ---- One column ----

  /** A wide rune on a single column goes to the next line first. */
  lemma PrintWideAlone(s: State, wide: bool, row: Row, rest: seq<Byte>) returns (t: State)
    requires AtStart(s) && s.cfg.cols == 1 && RowOk(s.cfg.width, wide, row) && IsWide(s.cfg.width, CellAt(row, 0))
    ensures Paper(t) && Later(s, t)
    ensures |t.past.log| > |s.past.log| || (t.cy == s.cy + 1 && IsWide(s.cfg.width, t.grid[t.cy][0]))
    ensures Run(s, RowBytes(row, 0, 1, true, PLAIN) + rest) == Run(t, rest)
  {
    hide Run, SgrBytes, StyleBytes, Encode, RowOk, WeakRow, Paper, SeenStyle, Draw;
    var c := CellAt(row, 0);
    var st, r := PrintedStyle(c), PrintedRune(c);
    BetweenReady(s);
    CellDraws(s.cfg.width, wide, row, 0);
    assert RowBytes(row, 1, 1, false, st) == SgrBytes([0]);
    var after := SgrBytes([0]) + rest;
    assert RowBytes(row, 0, 1, true, PLAIN) + rest == StyleBytes(st) + (Encode(r) + after);
    var p := RunStyle(s, st, Encode(r) + after);
    assert Between(p) && p.cx == 0 && !p.wrap by { PennedStarts(s, p, SeenStyle(st)); }
    BetweenReady(p);
    RunDraw(p, r, after);
    DrawKeeps(p, r);
    WideAloneMoves(p, r);
    BetweenReady(Draw(p, r));
    t := PrintReset(Draw(p, r), rest);
  }

  lemma PennedStarts(s: State, p: State, pen: Style)
    requires AtStart(s) && Penned(s, p, pen)
    ensures AtStart(p)
  {
    hide WeakRow;
  }

  lemma WideAloneMoves(p: State, r: Rune)
    requires AtStart(p) && p.cfg.cols == 1 && p.cfg.width(r) == 2 && r != 0
    ensures var t := Draw(p, r);
      && Shape(t) && (|t.past.log| > |p.past.log| || (t.cy == p.cy + 1 && IsWide(p.cfg.width, t.grid[t.cy][0])))
  {
    hide WeakRow, BlankFrom;
    NextLineStarts(p);
    FitIsNextLine(p, 2);
    StartReady(p);
    hide Paper, NextLine, FitWidth;
    var v := NextLine(p);
    assert Draw(p, r) == PutCell(v, r, 2);
  }

  ghost predicate WideAt(s: State, y: nat) {
    Shape(s) && y < |s.grid| && IsWide(s.cfg.width, s.grid[y][0])
  }

  /** More than `lines` lines were scrolled out, or a wide rune stands lower than row `b`, at
      the cursor at the lowest. */
  ghost predicate Sunk(s: State, lines: nat, b: nat) {
    |s.past.log| > lines || exists y: nat :: b < y <= s.cy && WideAt(s, y)
  }

  /** The same with the wide rune above the cursor. */
  ghost predicate SunkAbove(s: State, lines: nat, b: nat) {
    |s.past.log| > lines || exists y: nat :: b < y < s.cy && WideAt(s, y)
  }

  lemma SunkNewline(s: State, lines: nat, b: nat)
    requires Ready(s) && s.top == 0 && s.bot == s.cfg.rows - 1 && Sunk(s, lines, b) && |s.past.log| >= lines
    ensures SunkAbove(NextLine(s), lines, b) && |NextLine(s).past.log| >= lines
  {
    hide Shape, Ready, NextLine;
    NextLineMoves(s);
    NextLineAt(s);
    var v := NextLine(s);
    if |v.past.log| == lines {
      var y: nat :| b < y <= s.cy && WideAt(s, y);
      assert WideAt(v, y);
    }
  }

  lemma SunkRow(v: State, t: State, row: Row, lines: nat, b: nat)
    requires Shape(v) && AfterRow(v, t, row, 0) && SunkAbove(v, lines, b)
    ensures Sunk(t, lines, b) && |t.past.log| == |v.past.log|
  {
    hide Painted;
    if |v.past.log| <= lines {
      var y: nat :| b < y < v.cy && WideAt(v, y);
      assert WideAt(t, y);
    }
  }

  lemma {:induction false} PrintRestAlone(s: State, wide: bool, rows: seq<Row>, b: nat, i: nat, lines: nat,
                                          rest: seq<Byte>)
    returns (t: State)
    requires Ready(s) && s.top == 0 && s.bot == s.cfg.rows - 1 && s.cfg.cols == 1 && s.cfg.width(0x20) == 1
    requires b <= i < |rows| && Sunk(s, lines, b) && |s.past.log| >= lines
    requires forall j | b < j < |rows| ::
      RowOk(s.cfg.width, wide, rows[j]) && ReproducibleRow(s.cfg.width, rows[j], s.cfg.cols)
    ensures Ready(t) && t.cfg == s.cfg && t.input.pend == s.input.pend && Sunk(t, lines, b) && |t.past.log| >= lines
    ensures Run(s, (if i + 1 < |rows| then NEWLINE + RowsBytes(rows, i + 1, s.cfg.cols) else []) + rest) == Run(t, rest)
    decreases |rows| - i
  {
    hide Run, RowOk, RowBytes, ReproducibleRow, Painted, NextLine, Ready, Sunk, SunkAbove;
    if i + 1 == |rows| {
      t := s;
      assert [] + rest == rest;
    } else {
      NextLineMoves(s);
      var v := NextLine(s);
      var row := rows[i + 1];
      var after := if i + 2 < |rows| then NEWLINE + RowsBytes(rows, i + 2, 1) else [];
      var text := RowBytes(row, 0, 1, true, PLAIN);
      RowsBytesStep(rows, i + 1, 1);
      assert NEWLINE + (text + after) + rest == NEWLINE + (text + (after + rest));
      PrintNewline(s, text + (after + rest));
      SunkNewline(s, lines, b);
      NextLineAt(s);
      assert AtColumn(v, row, 0) by { FirstCell(s.cfg.width, row, 1); }
      var u := PaintFrom(v, wide, row, 0, true, PLAIN, after + rest);
      SunkRow(v, u, row, lines, b);
      t := PrintRestAlone(u, wide, rows, b, i + 1, lines, rest);
    }
  }

  /** All rows on one column, of which `b` is the last with a wide rune. */
  lemma PrintSinking(s: State, wide: bool, rows: seq<Row>, b: nat, rest: seq<Byte>) returns (t: State)
    requires AtStart(s) && s.cfg.cols == 1 && b < |rows| <= s.cfg.rows
    requires forall j | 0 <= j < |rows| :: RowOk(s.cfg.width, wide, rows[j])
    requires IsWide(s.cfg.width, CellAt(rows[b], 0))
    requires forall j | b < j < |rows| :: ReproducibleRow(s.cfg.width, rows[j], s.cfg.cols)
    ensures Ready(t) && t.cfg == s.cfg && t.input.pend == s.input.pend && Sunk(t, |s.past.log|, b)
    ensures Run(s, RowsBytes(rows, 0, s.cfg.cols) + rest) == Run(t, rest)
  {
    hide Run, RowOk, RowBytes, RowsBytes, ReproducibleRow, Paper;
    var u := PrintUpTo(s, wide, rows, 0, b, rest);
    RowsBytesStep(rows, b, 1);
    var text := RowBytes(rows[b], 0, 1, true, PLAIN);
    var after := if b + 1 < |rows| then NEWLINE + RowsBytes(rows, b + 1, 1) else [];
    assert (text + after) + rest == text + (after + rest);
    var v := PrintWideAlone(u, wide, rows[b], after + rest);
    BetweenReady(u);
    PaperReady(v);
    assert Sunk(v, |s.past.log|, b) by {
      if |v.past.log| <= |s.past.log| {
        assert WideAt(v, v.cy);
      }
    }
    t := PrintRestAlone(v, wide, rows, b, b, |s.past.log|, rest);
  }

  lemma SunkShows(t: State, rows: seq<Row>, b: nat)
    requires Shape(t) && t.cfg.cols == 1 && t.cfg.width(0x20) == 1 && Sunk(t, |t.past.log|, b)
    requires forall j | b < j < |rows| :: ReproducibleRow(t.cfg.width, rows[j], 1)
    ensures Rectangle(t.grid, 1) && !AlikeGrid(t.grid, rows, 1)
  {
    hide AlikeGrid;
    var y: nat :| b < y <= t.cy && WideAt(t, y);
    assert y < |rows| ==> ReproducibleAt(t.cfg.width, rows[y], 1, 0);
    if AlikeGrid(t.grid, rows, 1) {
      AlikeAt(t.cfg.width, t.grid, rows, 1, y, 0);
    }
  }

  // ---- The frame ----

  /** The frame of any rows: weak rows, whatever they were. */
  lemma FrameLeavesWeak(s: State, wide: bool, rows: seq<Row>, row: int, col: nat)
    requires Receiver(s) && Shape(s) && ParmOk(s) && s.cfg.width(0x20) == 1 && 1 <= |rows| <= s.cfg.rows
    requires forall k | 0 <= k < |rows| :: RowOk(s.cfg.width, wide, rows[k])
    ensures var t := Feed(s, FrameBytes(rows, row, col, s.cfg.rows, s.cfg.cols));
      Shape(t) && t.cfg == s.cfg && forall y | 0 <= y < s.cfg.rows :: WeakRow(s.cfg.width, t.grid[y], s.cfg.cols)
  {
    hide Ready, Run, RowsBytes, CursorBytes, Opening, Closing, WeakRow, RowOk, Paper;
    var r2 := CursorBytes(row, col, s.cfg.rows, s.cfg.cols) + Closing();
    var a := FrameOpens(s, rows, row, col);
    var b := PrintRows(a, wide, rows, 0, r2);
    PaperReady(b);
    var c := RunClosing(b, row, col);
    NotPanicked(c);
    PaperWeak(b);
  }

  lemma PaperWeak(s: State)
    requires Paper(s)
    ensures Shape(s) && forall y | 0 <= y < s.cfg.rows :: WeakRow(s.cfg.width, s.grid[y], s.cfg.cols)
  {
    hide WeakRow;
  }

  /** A frame begins on a blank screen. */
  lemma FrameOpens(s: State, rows: seq<Row>, row: int, col: nat) returns (a: State)
    requires Receiver(s) && Shape(s) && ParmOk(s) && s.cfg.width(0x20) == 1
    ensures AtStart(a) && a.cfg == s.cfg && a.input.pend == [] && a.past == s.past
    ensures var r2 := CursorBytes(row, col, s.cfg.rows, s.cfg.cols) + Closing();
      Feed(s, FrameBytes(rows, row, col, s.cfg.rows, s.cfg.cols)) == Run(a, RowsBytes(rows, 0, s.cfg.cols) + r2)
  {
    hide Ready, Run, RowsBytes, CursorBytes, Opening, Closing, WeakRow;
    var r2 := CursorBytes(row, col, s.cfg.rows, s.cfg.cols) + Closing();
    var r1 := RowsBytes(rows, 0, s.cfg.cols) + r2;
    var bytes := FrameBytes(rows, row, col, s.cfg.rows, s.cfg.cols);
    assert bytes == Opening() + r1;
    assert Carrying(s, []) == s && [] + bytes == bytes;
    assert Feed(s, bytes) == Run(s, bytes) by { NotPanicked(s); }
    a := RunOpening(s, r1);
    NotPanicked(a);
    BlankIsWeak(s.cfg.width, s.cfg.cols);
  }

  /** Rows that are not all reproducible do not show: the grid differs, or, on a single column
      with a wide rune, lines were scrolled out. */
  lemma SpillNeverShows(s: State, wide: bool, rows: seq<Row>, b: nat, row: int, col: nat)
    requires Receiver(s) && Shape(s) && ParmOk(s) && s.cfg.width(0x20) == 1 && b < |rows| <= s.cfg.rows
    requires forall k | 0 <= k < |rows| :: RowOk(s.cfg.width, wide, rows[k])
    requires WeakRow(s.cfg.width, rows[b], s.cfg.cols) && !ReproducibleRow(s.cfg.width, rows[b], s.cfg.cols)
    requires forall j | b < j < |rows| :: ReproducibleRow(s.cfg.width, rows[j], s.cfg.cols)
    ensures var t := Feed(s, FrameBytes(rows, row, col, s.cfg.rows, s.cfg.cols));
      && Shape(t) && t.cfg == s.cfg && Rectangle(t.grid, s.cfg.cols)
      && (!AlikeGrid(t.grid, rows, s.cfg.cols) || (s.cfg.cols == 1 && t.past != s.past))
  {
    hide Ready, Run, RowsBytes, CursorBytes, Opening, Closing, WeakRow, RowOk, ReproducibleRow, AlikeGrid;
    hide Between, Shifted, Sunk;
    var r2 := CursorBytes(row, col, s.cfg.rows, s.cfg.cols) + Closing();
    var a := FrameOpens(s, rows, row, col);
    if s.cfg.cols >= 2 {
      var u := PrintSpilling(a, wide, rows, b, r2);
      SpillShows(s.cfg.width, s.cfg.cols, u.grid, u.cy, rows, b);
      var c := RunClosing(u, row, col);
      NotPanicked(c);
    } else {
      WideIfAlone(s, rows[b]);
      var u := PrintSinking(a, wide, rows, b, r2);
      var c := RunClosing(u, row, col);
      NotPanicked(c);
      NotPanicked(u);
      if u.past == a.past {
        SunkShows(u, rows, b);
      }
    }
  }

  lemma WideIfAlone(s: State, row: Row)
    requires Shape(s) && s.cfg.cols == 1
    requires WeakRow(s.cfg.width, row, s.cfg.cols) && !ReproducibleRow(s.cfg.width, row, s.cfg.cols)
    ensures IsWide(s.cfg.width, CellAt(row, 0))
  {
    assert WeakAt(s.cfg.width, row, 1, 0) && !ReproducibleAt(s.cfg.width, row, 1, 0);
  }

  // ---- The result ----

  /** A row that a weak row looks like is weak. */
  lemma LookalikeRow(width: Rune -> Width, wide: bool, shown: Row, row: Row, vcols: nat)
    requires |shown| == vcols && WeakRow(width, shown, vcols) && width(0x20) == 1
    requires forall x | 0 <= x < vcols :: Appears(shown[x]) == Appears(CellAt(row, x))
    ensures WeakRow(width, row, vcols)
  {
    forall x | 0 <= x < vcols
      ensures WeakAt(width, row, vcols, x)
    {
      assert WeakAt(width, shown, vcols, x);
      AlikeCells(width, shown[x], CellAt(row, x));
      if x + 1 < vcols {
        AlikeCells(width, shown[x + 1], CellAt(row, x + 1));
      }
      if x > 0 {
        AlikeCells(width, shown[x - 1], CellAt(row, x - 1));
      }
    }
  }

  ghost predicate AllReproducible(width: Rune -> Width, rows: seq<Row>, vcols: nat) {
    forall i | 0 <= i < |rows| :: ReproducibleRow(width, rows[i], vcols)
  }

  lemma {:induction false} LastSpill(width: Rune -> Width, rows: seq<Row>, vcols: nat, n: nat) returns (b: nat)
    requires n <= |rows| && forall j | n <= j < |rows| :: ReproducibleRow(width, rows[j], vcols)
    requires !AllReproducible(width, rows, vcols)
    ensures b < |rows| && !ReproducibleRow(width, rows[b], vcols)
    ensures forall j | b < j < |rows| :: ReproducibleRow(width, rows[j], vcols)
    decreases n
  {
    hide ReproducibleRow;
    if !ReproducibleRow(width, rows[n - 1], vcols) {
      b := n - 1;
    } else {
      b := LastSpill(width, rows, vcols, n - 1);
    }
  }

  /** A receiver that looks like the rows, with its history as it was, was sent reproducible
      rows; on two columns or more the looks are enough. */
  lemma AlikeIsReproducible(s: State, wide: bool, rows: seq<Row>, row: int, col: nat)
    requires Receiver(s) && Shape(s) && ParmOk(s) && s.cfg.width(0x20) == 1 && 1 <= |rows| <= s.cfg.rows
    requires forall k | 0 <= k < |rows| :: RowOk(s.cfg.width, wide, rows[k])
    ensures var t := Feed(s, FrameBytes(rows, row, col, s.cfg.rows, s.cfg.cols));
      && Shape(t) && t.cfg == s.cfg
      && (LooksLike(t, rows) && (s.cfg.cols >= 2 || t.past == s.past) ==>
            AllReproducible(s.cfg.width, rows, s.cfg.cols))
  {
    hide Ready, FrameBytes, Feed, WeakRow, RowOk, ReproducibleRow, Appears;
    var t := Feed(s, FrameBytes(rows, row, col, s.cfg.rows, s.cfg.cols));
    FrameLeavesWeak(s, wide, rows, row, col);
    assert Rectangle(t.grid, s.cfg.cols) && LooksLike(t, rows) == AlikeGrid(t.grid, rows, s.cfg.cols);
    if LooksLike(t, rows) && (s.cfg.cols >= 2 || t.past == s.past) && !AllReproducible(s.cfg.width, rows, s.cfg.cols) {
      forall i | 0 <= i < |rows|
        ensures WeakRow(s.cfg.width, rows[i], s.cfg.cols)
      {
        assert RowAt(rows, i) == rows[i];
        LookalikeRow(s.cfg.width, wide, t.grid[i], rows[i], s.cfg.cols);
      }
      var b := LastSpill(s.cfg.width, rows, s.cfg.cols, |rows|);
      SpillNeverShows(s, wide, rows, b, row, col);
    }
  }

  /** Rendering and feeding the bytes to any receiver of the viewport's size. The receiver looks
      like the viewport and keeps its history if and only if every row is reproducible and
      every colour can be printed; on two columns or more the looks alone decide. */
  lemma RenderIsExact(v: View, s: State, recv: State, vrows: nat, vcols: nat)
    requires Sane(v) && Reached(s) && ReceiverFor(s, recv, vrows, vcols) && Shape(recv) && ParmOk(recv)
    ensures var t := Feed(recv, Render(v, s, vrows, vcols)); var rows := Viewport(v, s, vrows);
      && (LooksLike(t, rows) && t.past == recv.past
          <==> AllReproducible(s.cfg.width, rows, vcols) && ColorsKept(rows, vcols))
      && (vcols >= 2 ==>
            (LooksLike(t, rows) <==> AllReproducible(s.cfg.width, rows, vcols) && ColorsKept(rows, vcols)))
  {
    hide RowOk, ReproducibleRow, FrameBytes, Ready, Feed, ColorsKept, Viewport, LooksLike;
    var rows := Viewport(v, s, vrows);
    ViewportOk(v, s, vrows);
    AlikeIsReproducible(recv, s.wideDrawn, rows, CursorRow(v, s, vrows), s.cx + 1);
    if AllReproducible(s.cfg.width, rows, vcols) {
      RenderRoundTrip(v, s, recv, vrows, vcols);
    }
  }

  lemma ViewportOk(v: View, s: State, vrows: nat)
    requires Sane(v) && Reached(s) && vrows >= 1
    ensures var rows := Viewport(v, s, vrows);
      1 <= |rows| <= vrows && forall i | 0 <= i < |rows| :: RowOk(s.cfg.width, s.wideDrawn, rows[i])
  {
    RenderSettles(v, s, vrows);
    CanvasOk(s);
    hide RowOk, Inv;
  }

  // ---- The second half of a wide rune, overwritten ----

  /** A wide rune at home, then a narrow one over its second half. */
  function HalfOverwritten(w: Rune, a: Rune): seq<Byte>
    requires IsScalar(w) && IsScalar(a)
  {
    Encode(w) + (CsiBytes(false, Numerals([1, 2]), 0x48) + Encode(a))
  }

  ghost predicate HalfShown(s: State, w: Rune, a: Rune) {
    && Shape(s) && s.cfg.cols >= 2
    && s.grid[0][0] == Cell(w, false, PLAIN) && s.grid[0][1] == Cell(a, false, PLAIN)
  }

  lemma HalfIsNotReproducible(s: State, w: Rune, a: Rune)
    requires HalfShown(s, w, a) && w != 0 && a != 0 && s.cfg.width(w) == 2
    ensures !ReproducibleRow(s.cfg.width, s.grid[0], s.cfg.cols)
  {
    assert !ReproducibleAt(s.cfg.width, s.grid[0], s.cfg.cols, 0);
  }

  lemma FirstHalf(width: Rune -> Width, cols: nat, rows: nat, w: Rune)
    requires cols >= 2 && rows >= 1 && w != 0 && width(w) == 2
    ensures var n := NewModel(width, cols, rows); Ready(n) && n.input.pend == []
    ensures var n := NewModel(width, cols, rows); var p := PutCell(n, w, 2);
      && Ready(p) && p.cfg == n.cfg && p.past == n.past && p.pen == PLAIN && p.input == n.input
      && p.grid[0][0] == Cell(w, false, PLAIN)
  {
  }

  lemma SecondHalf(q: State, w: Rune, a: Rune)
    requires Ready(q) && q.cx == 1 && q.cy == 0 && q.pen == PLAIN && q.cfg.cols >= 2
    requires q.grid[0][0] == Cell(w, false, PLAIN)
    ensures var s := PutCell(q, a, 1);
      HalfShown(s, w, a) && ParmOk(s) && s.cfg == q.cfg && s.past == q.past
  {
  }

  lemma HalfRuns(width: Rune -> Width, cols: nat, rows: nat, w: Rune, a: Rune) returns (s: State)
    requires cols >= 2 && rows >= 1 && Drawable(width, w) && Drawable(width, a) && width(w) == 2 && width(a) == 1
    ensures var n := NewModel(width, cols, rows);
      && Shape(n) && ParmOk(n) && s == Run(n, HalfOverwritten(w, a)) && HalfShown(s, w, a)
      && s.cfg == n.cfg && s.past == n.past
  {
    var n := NewModel(width, cols, rows);
    FirstHalf(width, cols, rows, w);
    hide Run, Numerals, CsiBytes, Encode, PutCell, NewModel, Ready;
    NotPanicked(n);
    var cup := CsiBytes(false, Numerals([1, 2]), 0x48);
    var text := Encode(a);
    assert n.cfg == Setting(width, cols, rows) && n.cx == 0 && !n.wrap by { NewModelAt(width, cols, rows); }
    RunRune(n, w, cup + text);
    var p := PutCell(n, w, 2);
    NotPanicked(p);
    var q := RunCup(p, [1, 2], text);
    NotPanicked(q);
    RunRune(q, a, []);
    assert text + [] == text;
    SecondHalf(q, w, a);
    s := PutCell(q, a, 1);
    RunNothing(s);
  }

  lemma NewModelAt(width: Rune -> Width, cols: nat, rows: nat)
    requires cols >= 1 && rows >= 1
    ensures var n := NewModel(width, cols, rows);
      && n.cfg == Setting(width, cols, rows) && n.cx == 0 && !n.wrap && n.input.pend == [] && n.past.lines == []
      && !n.panicked
  {
  }

  /** No receiver of the model's size ever looks like it then. */
  lemma HalfOverwrittenNeverShows(width: Rune -> Width, cols: nat, rows: nat, w: Rune, a: Rune, recv: State)
    requires cols >= 2 && rows >= 1 && Drawable(width, w) && Drawable(width, a) && width(w) == 2 && width(a) == 1
    requires Receiver(recv) && Shape(recv) && ParmOk(recv) && recv.cfg == Setting(width, cols, rows) && width(0x20) == 1
    ensures var n := NewModel(width, cols, rows);
      Shape(n) && ParmOk(n)
      && var s := Feed(n, HalfOverwritten(w, a)); var t := Feed(recv, Render(INITIAL, s, rows, cols));
      Shape(t) && !LooksLike(t, s.grid)
  {
    HalfFed(width, cols, rows, w, a);
    var s := Feed(NewModel(width, cols, rows), HalfOverwritten(w, a));
    hide Feed, Render, LooksLike, ReproducibleRow, Inv, HalfOverwritten, Ready, NewModel, Viewport, PendOk, ColorsKept;
    RenderIsExact(INITIAL, s, recv, rows, cols);
  }

  lemma HalfFed(width: Rune -> Width, cols: nat, rows: nat, w: Rune, a: Rune)
    requires cols >= 2 && rows >= 1 && Drawable(width, w) && Drawable(width, a) && width(w) == 2 && width(a) == 1
    ensures var n := NewModel(width, cols, rows);
      && Shape(n) && ParmOk(n)
      && var s := Feed(n, HalfOverwritten(w, a));
      && Reached(s) && s.cfg == n.cfg && |s.grid| > 0 && !ReproducibleRow(width, s.grid[0], cols)
      && Viewport(INITIAL, s, rows) == s.grid
  {
    var n := NewModel(width, cols, rows);
    var s := HalfRuns(width, cols, rows, w, a);
    NewModelAt(width, cols, rows);
    NewModelInv(width, cols, rows);
    hide Run, Feed, ReproducibleRow, Inv, HalfOverwritten, NewModel, HalfShown, Shape, Viewport, PendOk;
    FeedIsRun(n, HalfOverwritten(w, a));
    FeedReaches(n, HalfOverwritten(w, a));
    HalfIsNotReproducible(s, w, a);
    GridInView(s, rows);
  }

  /** Without history the live viewport is the grid. */
  lemma GridInView(s: State, vrows: nat)
    requires Inv(s) && s.past.lines == [] && vrows == s.cfg.rows
    ensures Viewport(INITIAL, s, vrows) == s.grid && |s.grid| > 0
  {
    hide GridInv, HistInv;
    RenderSettles(INITIAL, s, vrows);
    assert Canvas(s) == s.grid;
  }

  // ---- A colour with bits beyond the 24-bit mark ----

  /** A palette number far beyond the palette, then a rune in that colour. */
  function ForeignColored(a: Rune): seq<Byte>
    requires IsScalar(a)
  {
    SgrBytes([38, 5, 50331647]) + Encode(a)
  }

  const FOREIGN: Color := 50331648

  lemma ForeignPen(pen: Style)
    ensures Sgr(pen, [38, 5, 50331647]) == pen.(fg := FOREIGN) && !ColorKept(FOREIGN)
  {
    SgrWhole(pen, [38, 5, 50331647]);
  }

  lemma ColoredRuns(width: Rune -> Width, cols: nat, rows: nat, a: Rune) returns (s: State)
    requires cols >= 1 && rows >= 1 && Drawable(width, a) && width(a) <= cols
    ensures var n := NewModel(width, cols, rows);
      && Shape(n) && ParmOk(n) && Ready(s) && s == Run(n, ForeignColored(a)) && s.cfg == n.cfg && s.past == n.past
      && s.grid[0][0] == Cell(a, false, PLAIN.(fg := FOREIGN))
  {
    var n := NewModel(width, cols, rows);
    var q := AfterSgr(n, [38, 5, 50331647]);
    var text := Encode(a);
    hide Run, Encode, SgrBytes, Numerals, Sgr;
    RunSgr(n, [38, 5, 50331647], text);
    ForeignPen(PLAIN);
    RunRune(q, a, []);
    assert text + [] == text;
    s := PutCell(q, a, width(a));
    RunNothing(s);
  }

  /** No receiver of the model's size ever looks like it then, history kept or, on two
      columns or more, not. */
  lemma ForeignColorNeverShows(width: Rune -> Width, cols: nat, rows: nat, a: Rune, recv: State)
    requires cols >= 1 && rows >= 1 && Drawable(width, a) && width(a) <= cols
    requires Receiver(recv) && Shape(recv) && ParmOk(recv) && recv.cfg == Setting(width, cols, rows) && width(0x20) == 1
    ensures var n := NewModel(width, cols, rows);
      Shape(n) && ParmOk(n)
      && var s := Feed(n, ForeignColored(a)); var t := Feed(recv, Render(INITIAL, s, rows, cols));
      Shape(t) && !(LooksLike(t, s.grid) && t.past == recv.past) && (cols >= 2 ==> !LooksLike(t, s.grid))
  {
    ColoredFed(width, cols, rows, a);
    var s := Feed(NewModel(width, cols, rows), ForeignColored(a));
    hide Feed, Render, LooksLike, AllReproducible, Inv, ForeignColored, Ready, NewModel, Viewport, PendOk, ColorsKept;
    RenderIsExact(INITIAL, s, recv, rows, cols);
  }

  lemma ColoredFed(width: Rune -> Width, cols: nat, rows: nat, a: Rune)
    requires cols >= 1 && rows >= 1 && Drawable(width, a) && width(a) <= cols
    ensures var n := NewModel(width, cols, rows);
      && Shape(n) && ParmOk(n)
      && var s := Feed(n, ForeignColored(a));
      Reached(s) && s.cfg == n.cfg && !ColorsKept(s.grid, cols) && Viewport(INITIAL, s, rows) == s.grid
  {
    var n := NewModel(width, cols, rows);
    var s := ColoredRuns(width, cols, rows, a);
    NewModelAt(width, cols, rows);
    NewModelInv(width, cols, rows);
    ForeignPen(PLAIN);
    NotPanicked(s);
    UnkeptCell(s, a);
    hide Run, Feed, Inv, ForeignColored, NewModel, Shape, Viewport, PendOk, Ready, ColorsKept;
    FeedIsRun(n, ForeignColored(a));
    FeedReaches(n, ForeignColored(a));
    GridInView(s, rows);
  }

  lemma UnkeptCell(s: State, a: Rune)
    requires Shape(s) && a != 0 && s.grid[0][0] == Cell(a, false, PLAIN.(fg := FOREIGN)) && !ColorKept(FOREIGN)
    ensures !ColorsKept(s.grid, s.cfg.cols)
  {
    assert !StyleKept(CellAt(s.grid[0], 0));
  }
}
