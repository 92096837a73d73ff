/** Feeding a frame to another terminal model reproduces the viewport there. */
module FrameRoundTrip {
  import opened Bytes
  import opened Utf8
  import opened Terminal
  import opened TerminalInvariants
  import opened ControlSequences
  import opened Frame

  /** Up to `vcols` columns, every wide rune is followed by its continuation cell and
      every continuation cell follows a wide rune. */
  ghost predicate WellFormedRow(width: Rune -> Width, row: Row, vcols: nat) {
    forall x | 0 <= x < vcols :: WellFormedAt(width, row, vcols, x)
  }

  ghost predicate WellFormedAt(width: Rune -> Width, row: Row, vcols: nat, x: nat) {
    && (IsWide(width, CellAt(row, x)) ==> x + 1 < vcols && CellAt(row, x + 1).cont)
    && (CellAt(row, x).cont ==> x > 0 && IsWide(width, CellAt(row, x - 1)))
  }

  /** What a frame can reproduce: well-formed rows, and rows whose last column holds a
      narrow rune over the second half of a wide one, in another style. Printing that style
      drops the wrap that the wide rune left pending, so the narrow rune lands on the last
      column again. */
  ghost predicate ReproducibleRow(width: Rune -> Width, row: Row, vcols: nat) {
    forall x | 0 <= x < vcols :: ReproducibleAt(width, row, vcols, x)
  }

  ghost predicate ReproducibleAt(width: Rune -> Width, row: Row, vcols: nat, x: nat) {
    && (IsWide(width, CellAt(row, x)) ==>
          (x + 1 < vcols && CellAt(row, x + 1).cont) || Rewritten(width, row, vcols, x))
    && (CellAt(row, x).cont ==> x > 0 && IsWide(width, CellAt(row, x - 1)))
  }

  ghost predicate Rewritten(width: Rune -> Width, row: Row, vcols: nat, x: nat) {
    && NarrowLast(width, row, vcols, x)
    && PrintedStyle(CellAt(row, x + 1)) != CellAt(row, x).st
  }

  ghost predicate NarrowLast(width: Rune -> Width, row: Row, vcols: nat, x: nat) {
    x + 2 == vcols && !CellAt(row, x + 1).cont && width(PrintedRune(CellAt(row, x + 1))) == 1
  }

  lemma WellFormedIsReproducible(width: Rune -> Width, row: Row, vcols: nat)
    requires WellFormedRow(width, row, vcols)
    ensures ReproducibleRow(width, row, vcols)
  {
    forall x | 0 <= x < vcols
      ensures ReproducibleAt(width, row, vcols, x)
    {
      assert WellFormedAt(width, row, vcols, x);
    }
  }

  /** A row as a receiver of `vcols` columns shows it. */
  function Painted(row: Row, vcols: nat): (out: Row)
    ensures |out| == vcols
    ensures forall x | 0 <= x < vcols :: out[x] == Shown(CellAt(row, x))
  {
    seq(vcols, x requires 0 <= x < vcols => Shown(CellAt(row, x)))
  }

  /** A rune that fits is written at the cursor, and the cursor moves on. */
  lemma RunRune(s: State, r: Rune, rest: seq<Byte>)
    requires Ready(s) && !s.wrap && Drawable(s.cfg.width, r) && s.cx + s.cfg.width(r) <= s.cfg.cols
    ensures Run(s, Encode(r) + rest) == Run(PutCell(s, r, s.cfg.width(r)), rest)
  {
    hide Shape, PutCell, Run;
    RunDraw(s, r, rest);
    assert Draw(s, r) == PutCell(s, r, s.cfg.width(r));
  }

  /** An encoded rune is drawn. */
  lemma RunDraw(s: State, r: Rune, rest: seq<Byte>)
    requires Ready(s) && 0x20 <= r && IsScalar(r)
    ensures Run(s, Encode(r) + rest) == Run(Draw(s, r), rest)
  {
    hide Shape, Draw;
    var bs := Encode(r);
    if r >= 0x80 {
      DecodeInvertsEncode(r);
    }
    assert bs[0] >= 0x20 && |bs| == SequenceLength(bs[0]);
    assert (bs + rest)[0] == bs[0];
    assert (bs + rest)[..|bs|] == bs && (bs + rest)[|bs|..] == rest;
    assert DrawSequence(s, bs) == Draw(s, r);
  }

  /** `u` is `s` after printing cell `c`, which takes `w` columns. */
  ghost predicate AfterCell(s: State, u: State, c: Cell, w: nat) {
    && Shape(s) && Ready(u) && u.input.pend == s.input.pend
    && u == PutCell(s.(pen := SeenStyle(PrintedStyle(c)), input := u.input), PrintedRune(c), w)
  }

  /** One printed cell, with or without a style change. A style change drops a pending wrap. */
  lemma PaintOne(s: State, c: Cell, styled: bool, rest: seq<Byte>) returns (u: State)
    requires Ready(s) && !c.cont && (s.wrap ==> styled && s.cx + 1 == s.cfg.cols)
    requires Drawable(s.cfg.width, PrintedRune(c)) && s.cx + s.cfg.width(PrintedRune(c)) <= s.cfg.cols
    requires styled || s.pen == SeenStyle(PrintedStyle(c))
    ensures AfterCell(s, u, c, s.cfg.width(PrintedRune(c)))
    ensures Run(s, (if styled then StyleBytes(PrintedStyle(c)) else []) + Encode(PrintedRune(c)) + rest) == Run(u, rest)
  {
    hide Run, StyleBytes, SeenStyle, Shape, PutCell, Encode;
    var r := PrintedRune(c);
    var st := PrintedStyle(c);
    var p := s;
    if styled {
      assert StyleBytes(st) + Encode(r) + rest == StyleBytes(st) + (Encode(r) + rest);
      p := RunStyle(s, st, Encode(r) + rest);
    } else {
      assert [] + Encode(r) + rest == Encode(r) + rest;
    }
    RunRune(p, r, rest);
    u := PutCell(p, r, s.cfg.width(r));
    PutCellReady(p, r, s.cfg.width(r));
    PutCellWraps(p, s.wrap, r, s.cfg.width(r));
  }

  /** In the last column a wrap pending before makes no difference. */
  lemma PutCellWraps(s: State, wrap: bool, r: Rune, w: nat)
    requires Shape(s) && w >= 1 && (wrap != s.wrap ==> s.cx + 1 == s.cfg.cols)
    ensures Shape(s.(wrap := wrap)) && PutCell(s.(wrap := wrap), r, w) == PutCell(s, r, w)
  {
  }

  lemma PutCellReady(s: State, r: Rune, w: nat)
    requires Ready(s)
    ensures Ready(PutCell(s, r, w)) && PutCell(s, r, w).input == s.input
  {
  }

  /** What a row of cells does to the receiver's row `y` from column `x` on. */
  function PaintedRow(s: State, row: Row, x: nat): Row
    requires Shape(s) && x <= s.cfg.cols
  {
    s.grid[s.cy][..x] + Painted(row, s.cfg.cols)[x..]
  }

  /** The receiver after the rest of a row, back in the plain style. */
  ghost predicate AfterRow(s: State, t: State, row: Row, x: nat)
    requires Shape(s) && x <= s.cfg.cols
  {
    && Ready(t) && t.input.pend == s.input.pend
    && t == s.(grid := s.grid[s.cy := PaintedRow(s, row, x)], cx := s.cfg.cols - 1, wrap := false,
               pen := PLAIN, input := t.input, wideDrawn := t.wideDrawn)
  }

  lemma NarrowStep(s: State, u: State, t: State, row: Row, x: nat)
    requires Shape(s) && s.cx == x < s.cfg.cols && !s.wrap
    requires AfterCell(s, u, CellAt(row, x), 1) && !CellAt(row, x).cont
    requires AfterRow(u, t, row, x + 1)
    ensures AfterRow(s, t, row, x)
  {
    hide Painted, Ready, Shown;
    var c := CellAt(row, x);
    assert Painted(row, s.cfg.cols)[x] == Shown(c);
    assert Shown(c) == Cell(PrintedRune(c), false, SeenStyle(PrintedStyle(c))) by { ShownOf(c); }
    assert PaintedRow(u, row, x + 1) == PaintedRow(s, row, x);
  }

  lemma ShownOf(c: Cell)
    requires !c.cont
    ensures Shown(c) == Cell(PrintedRune(c), false, SeenStyle(PrintedStyle(c)))
  {
  }

  lemma WideStep(s: State, u: State, t: State, row: Row, x: nat)
    requires Shape(s) && s.cx == x && x + 1 < s.cfg.cols && !s.wrap
    requires AfterCell(s, u, CellAt(row, x), 2) && !CellAt(row, x).cont && CellAt(row, x).r != 0
    requires CellAt(row, x + 1).cont && CellAt(row, x + 1).st == CellAt(row, x).st
    requires AfterRow(u, t, row, x + 2)
    ensures AfterRow(s, t, row, x)
  {
    hide Painted, Ready, Shown;
    var c := CellAt(row, x);
    ShownOf(c);
    assert Painted(row, s.cfg.cols)[x] == Shown(c);
    assert Painted(row, s.cfg.cols)[x + 1] == Cell(0, true, SeenStyle(c.st)) by { ShownCont(CellAt(row, x + 1)); }
    assert PaintedRow(u, row, x + 2) == PaintedRow(s, row, x);
  }

  /** A wide rune in the last two columns, and a rune in another style over its second half. */
  lemma RewrittenStep(s: State, u: State, v: State, t: State, row: Row, x: nat)
    requires Shape(s) && s.cx == x && x + 2 == s.cfg.cols && !s.wrap
    requires AfterCell(s, u, CellAt(row, x), 2) && !CellAt(row, x).cont
    requires AfterCell(u, v, CellAt(row, x + 1), 1) && !CellAt(row, x + 1).cont
    requires AfterRow(v, t, row, x + 2)
    ensures AfterRow(s, t, row, x)
  {
    hide Painted, Ready, Shown;
    ShownOf(CellAt(row, x));
    ShownOf(CellAt(row, x + 1));
    assert Painted(row, s.cfg.cols)[x] == Shown(CellAt(row, x));
    assert Painted(row, s.cfg.cols)[x + 1] == Shown(CellAt(row, x + 1));
    assert PaintedRow(v, row, x + 2) == PaintedRow(s, row, x);
  }

  lemma ShownCont(c: Cell)
    requires c.cont
    ensures Shown(c) == Cell(0, true, SeenStyle(c.st))
  {
  }

  /** The receiver stands at column `x`, ready for the next cell. */
  ghost predicate AtColumn(s: State, row: Row, x: nat) {
    && Ready(s) && x <= s.cfg.cols
    && (if x < s.cfg.cols then !CellAt(row, x).cont && s.cx == x && !s.wrap else s.cx == s.cfg.cols - 1)
  }

  /** The reset at the end of a row. */
  lemma PaintEnd(s: State, row: Row, rest: seq<Byte>) returns (t: State)
    requires Ready(s) && s.cx == s.cfg.cols - 1
    ensures AfterRow(s, t, row, s.cfg.cols)
    ensures Run(s, SgrBytes([0]) + rest) == Run(t, rest)
  {
    hide Run, SgrBytes, Painted;
    RunSgr(s, [0], rest);
    SgrFlag(s.pen, 0);
    t := AfterSgr(s, [0]);
    assert PaintedRow(s, row, s.cfg.cols) == s.grid[s.cy];
  }

  /** A rune in another style over the second half of a wide one in the last columns. */
  lemma PaintOver(s: State, u: State, row: Row, x: nat, rest: seq<Byte>) returns (t: State)
    requires Shape(s) && s.cx == x && x + 2 == s.cfg.cols && !s.wrap && !CellAt(row, x).cont
    requires AfterCell(s, u, CellAt(row, x), 2)
    requires Rewritten(s.cfg.width, row, s.cfg.cols, x) && Drawable(s.cfg.width, PrintedRune(CellAt(row, x + 1)))
    requires PrintedStyle(CellAt(row, x)) == CellAt(row, x).st
    ensures AfterRow(s, t, row, x)
    ensures Run(u, RowBytes(row, x + 1, s.cfg.cols, false, PrintedStyle(CellAt(row, x))) + rest) == Run(t, rest)
  {
    hide Run, SgrBytes, StyleBytes, Encode, SeenStyle, Painted;
    var d := CellAt(row, x + 1);
    var st := PrintedStyle(d);
    assert RowBytes(row, x + 1, s.cfg.cols, false, PrintedStyle(CellAt(row, x))) + rest
        == StyleBytes(st) + Encode(PrintedRune(d)) + (SgrBytes([0]) + rest);
    var v := PaintOne(u, d, true, SgrBytes([0]) + rest);
    t := PaintEnd(v, row, rest);
    RewrittenStep(s, u, v, t, row, x);
  }

  lemma {:induction false} PaintFrom(s: State, wide: bool, row: Row, x: nat, first: bool, cur: Style,
                                     rest: seq<Byte>) returns (t: State)
    requires AtColumn(s, row, x) && s.cfg.width(0x20) == 1
    requires RowOk(s.cfg.width, wide, row) && ReproducibleRow(s.cfg.width, row, s.cfg.cols)
    requires first || s.pen == SeenStyle(cur)
    ensures AfterRow(s, t, row, x)
    ensures Run(s, RowBytes(row, x, s.cfg.cols, first, cur) + rest) == Run(t, rest)
    decreases s.cfg.cols - x
  {
    hide Run, SgrBytes, StyleBytes, Encode, RowOk, ReproducibleRow, SeenStyle, Painted;
    var vcols := s.cfg.cols;
    if x == vcols {
      t := PaintEnd(s, row, rest);
      return;
    }
    var c := CellAt(row, x);
    var st := PrintedStyle(c);
    var styled := first || st != cur;
    var style := if styled then StyleBytes(st) else [];
    CellPrints(s.cfg.width, wide, row, x, vcols);
    var after := RowBytes(row, x + 1, vcols, false, st);
    assert RowBytes(row, x, vcols, first, cur) + rest == style + Encode(PrintedRune(c)) + (after + rest);
    var u := PaintOne(s, c, styled, after + rest);
    if s.cfg.width(PrintedRune(c)) == 1 {
      assert AtColumn(u, row, x + 1);
      t := PaintFrom(u, wide, row, x + 1, false, st, rest);
      NarrowStep(s, u, t, row, x);
    } else if !CellAt(row, x + 1).cont {
      t := PaintOver(s, u, row, x, rest);
    } else {
      assert after == RowBytes(row, x + 2, vcols, false, st);
      assert AtColumn(u, row, x + 2);
      t := PaintFrom(u, wide, row, x + 2, false, st, rest);
      WideStep(s, u, t, row, x);
    }
  }

  /** What well-formedness gives the printer at a cell that is not a continuation. */
  lemma CellPrints(width: Rune -> Width, wide: bool, row: Row, x: nat, vcols: nat)
    requires RowOk(width, wide, row) && ReproducibleRow(width, row, vcols) && width(0x20) == 1
    requires x < vcols && !CellAt(row, x).cont
    ensures var c := CellAt(row, x); var w := width(PrintedRune(c));
      && Drawable(width, PrintedRune(c)) && x + w <= vcols
      && (w == 1 && x + 1 < vcols ==> !CellAt(row, x + 1).cont)
      && (w == 2 ==> c.r != 0)
      && (w == 2 && CellAt(row, x + 1).cont ==> CellAt(row, x + 1).st == c.st)
      && (w == 2 && !CellAt(row, x + 1).cont ==>
            Rewritten(width, row, vcols, x) && Drawable(width, PrintedRune(CellAt(row, x + 1))))
      && (w == 2 && x + 2 < vcols ==> !CellAt(row, x + 2).cont)
  {
    var c := CellAt(row, x);
    assert ReproducibleAt(width, row, vcols, x);
    assert x + 1 < vcols ==> ReproducibleAt(width, row, vcols, x + 1);
    assert x + 2 < vcols ==> ReproducibleAt(width, row, vcols, x + 2);
    if IsWide(width, c) && CellAt(row, x + 1).cont {
      assert PairOk(width, row[x], row[x + 1]);
      assert !IsWide(width, CellAt(row, x + 1));
    }
    assert CellOk(width, wide, CellAt(row, x + 1));
  }

  /** Every row can be printed to `vcols` columns. */
  ghost predicate Printable(width: Rune -> Width, wide: bool, rows: seq<Row>, vcols: nat) {
    forall i | 0 <= i < |rows| :: RowOk(width, wide, rows[i]) && ReproducibleRow(width, rows[i], vcols)
  }

  /** The receiver's grid once rows i.. are painted. */
  function PaintedGrid(grid: seq<Row>, rows: seq<Row>, i: nat, vcols: nat): (g: seq<Row>)
    requires i <= |rows| <= |grid|
    ensures |g| == |grid|
    ensures forall y {:trigger g[y]} | 0 <= y < |grid| ::
      g[y] == (if i <= y < |rows| then Painted(rows[y], vcols) else grid[y])
  {
    seq(|grid|, y requires 0 <= y < |grid| => if i <= y < |rows| then Painted(rows[y], vcols) else grid[y])
  }

  /** The receiver after printing rows i.. */
  ghost predicate AfterRows(s: State, t: State, rows: seq<Row>, i: nat)
    requires i < |rows| <= |s.grid|
  {
    && Ready(t) && t.input.pend == s.input.pend && t.cfg == s.cfg
    && t == s.(grid := PaintedGrid(s.grid, rows, i, s.cfg.cols), cx := s.cfg.cols - 1, cy := |rows| - 1,
               wrap := false, pen := PLAIN, input := t.input, wideDrawn := t.wideDrawn)
  }

  /** CR LF above the bottom margin goes to the start of the next line. */
  lemma RunNewline(s: State, rest: seq<Byte>) returns (t: State)
    requires Ready(s) && s.cy != s.bot && s.cy < s.cfg.rows - 1
    ensures Ready(t) && t == s.(cx := 0, cy := s.cy + 1, wrap := false)
    ensures Run(s, NEWLINE + rest) == Run(t, rest)
  {
    var u := s.(cx := 0, wrap := false);
    t := s.(cx := 0, cy := s.cy + 1, wrap := false);
    MovedShape(s, u);
    MovedShape(s, t);
    hide Shape, Run;
    assert NEWLINE + rest == [0x0d] + ([0x0a] + rest);
    RunControl(s, 0x0d, [0x0a] + rest);
    RunControl(u, 0x0a, rest);
  }

  lemma MovedShape(s: State, t: State)
    requires Shape(s) && t.cfg == s.cfg && t.grid == s.grid && t.cx < s.cfg.cols && t.cy < s.cfg.rows
    ensures Shape(t)
  {
  }

  lemma FirstCell(width: Rune -> Width, row: Row, vcols: nat)
    requires ReproducibleRow(width, row, vcols) && vcols >= 1
    ensures !CellAt(row, 0).cont
  {
    assert ReproducibleAt(width, row, vcols, 0);
  }

  lemma {:induction false} PaintRows(s: State, wide: bool, rows: seq<Row>, i: nat, rest: seq<Byte>)
    returns (t: State)
    requires Ready(s) && s.cfg.width(0x20) == 1 && i < |rows| <= s.cfg.rows && s.bot == s.cfg.rows - 1
    requires s.cy == i && s.cx == 0 && !s.wrap
    requires Printable(s.cfg.width, wide, rows, s.cfg.cols)
    ensures |rows| <= |s.grid| && AfterRows(s, t, rows, i)
    ensures Run(s, RowsBytes(rows, i, s.cfg.cols) + rest) == Run(t, rest)
    decreases |rows| - i
  {
    hide Run, RowOk, Painted, RowBytes;
    var vcols := s.cfg.cols;
    var separator := if i + 1 < |rows| then NEWLINE else [];
    var after := RowsBytes(rows, i + 1, vcols) + rest;
    assert RowsBytes(rows, i, vcols) + rest == RowBytes(rows[i], 0, vcols, true, PLAIN) + (separator + after);
    assert AtColumn(s, rows[i], 0) by { FirstCell(s.cfg.width, rows[i], vcols); }
    var u := PaintFrom(s, wide, rows[i], 0, true, PLAIN, separator + after);
    assert PaintedRow(s, rows[i], 0) == Painted(rows[i], vcols);
    if i + 1 < |rows| {
      var v := RunNewline(u, after);
      t := PaintRows(v, wide, rows, i + 1, rest);
      assert PaintedGrid(v.grid, rows, i + 1, vcols) == PaintedGrid(s.grid, rows, i, vcols);
    } else {
      t := u;
      assert separator + after == rest;
      assert u.grid == PaintedGrid(s.grid, rows, i, vcols);
    }
  }

  // ---- Around the rows ----

  /** A control sequence with the numbers `ns`. */
  lemma RunFinal(s: State, priv: bool, ns: seq<nat>, final: Byte, rest: seq<Byte>) returns (t: State)
    requires Ready(s) && IsFinal(final)
    ensures Shape(AtFinal(s, priv, Numerals(ns)))
    ensures t.input.parser == Ground && t.input.pend == s.input.pend && Shape(t) && ParmOk(t)
    ensures t == CsiEffect(AtFinal(s, priv, Numerals(ns)), ns, final).(wrap := false, input := t.input)
    ensures Run(s, CsiBytes(priv, Numerals(ns), final) + rest) == Run(t, rest)
  {
    hide Shape, Run, Numerals, CsiEffect, Params;
    RunCsi(s, priv, Numerals(ns), final, rest);
    ParamsInvertNumerals(ns);
    SameShape(s, AtFinal(s, priv, Numerals(ns)));
    t := AfterCsi(s, priv, Numerals(ns), final);
  }

  /** A private mode set (h) or reset (l): only 2026 is tracked. */
  lemma RunMode(s: State, mode: nat, on: bool, rest: seq<Byte>) returns (t: State)
    requires Ready(s)
    ensures Ready(t) && t.input.pend == s.input.pend
    ensures t == s.(sync := if mode == 2026 then on else s.sync, wrap := false, input := t.input)
    ensures Run(s, CsiBytes(true, Numerals([mode]), if on then 0x68 else 0x6c) + rest) == Run(t, rest)
  {
    hide Shape, Run, Numerals, CsiBytes;
    t := RunFinal(s, true, [mode], if on then 0x68 else 0x6c, rest);
  }

  lemma RunClear(s: State, rest: seq<Byte>) returns (t: State)
    requires Ready(s)
    ensures Ready(t) && t.input.pend == s.input.pend
    ensures t == s.(grid := BlankGrid(s.cfg.cols, s.cfg.rows), wrap := false, input := t.input)
    ensures Run(s, CsiBytes(false, Numerals([2]), 0x4a) + rest) == Run(t, rest)
  {
    hide Shape, Run, Numerals, CsiBytes, EraseLine;
    t := RunFinal(s, false, [2], 0x4a, rest);
  }

  /** CUP: numbers that are missing mean 1. */
  lemma RunCup(s: State, at: seq<nat>, rest: seq<Byte>) returns (t: State)
    requires Ready(s)
    ensures Ready(t) && t.input.pend == s.input.pend
    ensures t == s.(cx := Clamp(Arg(at, 1, 1) - 1, s.cfg.cols), cy := Clamp(Arg(at, 0, 1) - 1, s.cfg.rows),
                    wrap := false, input := t.input)
    ensures Run(s, CsiBytes(false, Numerals(at), 0x48) + rest) == Run(t, rest)
  {
    hide Shape, Run, Numerals, CsiBytes, Clamp, Arg;
    t := RunFinal(s, false, at, 0x48, rest);
  }

  /** `t` is `s` on a blank screen with the cursor at home, inside synchronized output. */
  ghost predicate Opened(s: State, t: State) {
    && Ready(t) && t.input.pend == s.input.pend
    && t == s.(grid := BlankGrid(s.cfg.cols, s.cfg.rows), cx := 0, cy := 0, wrap := false, sync := true,
               input := t.input)
  }

  lemma RunOpening(s: State, rest: seq<Byte>) returns (t: State)
    requires Ready(s)
    ensures Opened(s, t)
    ensures Run(s, Opening() + rest) == Run(t, rest)
  {
    hide Ready, Run, Numerals, CsiBytes;
    var r4 := CsiBytes(false, Numerals([]), 0x48) + rest;
    var r3 := CsiBytes(false, Numerals([9999, 1]), 0x48) + r4;
    var r2 := CsiBytes(false, Numerals([2]), 0x4a) + r3;
    var r1 := CsiBytes(true, Numerals([25]), 0x6c) + r2;
    assert Numerals([]) == [] by { EmptyNumerals(); }
    assert Opening() + rest == CsiBytes(true, Numerals([2026]), 0x68) + r1;
    var a := RunMode(s, 2026, true, r1);
    var b := RunMode(a, 25, false, r2);
    var c := RunClear(b, r3);
    var d := RunCup(c, [9999, 1], r4);
    t := RunCup(d, [], rest);
  }

  lemma EmptyNumerals()
    ensures Numerals([]) == []
  {
  }

  /** `t` is `s` with synchronized output ended and the cursor where it was asked for. */
  ghost predicate Closed(s: State, t: State, row: int, col: nat) {
    && Ready(t) && t.input.pend == s.input.pend
    && t == s.(cx := t.cx, cy := t.cy, wrap := false, sync := false, input := t.input)
    && (1 <= row <= s.cfg.rows && col >= 1 ==> t.cy == row - 1 && t.cx == Min(col, s.cfg.cols) - 1)
  }

  lemma RunClosing(s: State, row: int, col: nat) returns (t: State)
    requires Ready(s)
    ensures Closed(s, t, row, col)
    ensures Run(s, CursorBytes(row, col, s.cfg.rows, s.cfg.cols) + Closing()) == t
  {
    hide Run, Numerals, CsiBytes;
    var u := s;
    if 1 <= row <= s.cfg.rows {
      var at := [row, if col > s.cfg.cols then s.cfg.cols else col];
      var r1 := CsiBytes(true, Numerals([25]), 0x68) + Closing();
      assert CursorBytes(row, col, s.cfg.rows, s.cfg.cols) + Closing() == CsiBytes(false, Numerals(at), 0x48) + r1;
      var a := RunCup(s, at, r1);
      u := RunMode(a, 25, true, Closing());
    } else {
      assert CursorBytes(row, col, s.cfg.rows, s.cfg.cols) + Closing() == Closing();
    }
    assert Closing() == CsiBytes(true, Numerals([2026]), 0x6c) + [];
    t := RunMode(u, 2026, false, []);
    RunNothing(t);
  }

  // ---- The frame ----

  /** A receiver that is as the frame expects it: between sequences, full margins. */
  ghost predicate Receiver(s: State) {
    Ready(s) && s.input.pend == [] && s.top == 0 && s.bot == s.cfg.rows - 1
  }

  /** The receiver after a frame with the viewport `rows` and the cursor at (row, col):
      exactly the painted rows above blank ones, and no other trace than the pen, the
      cursor and the last parameters. */
  ghost predicate ShowsFrame(s: State, t: State, rows: seq<Row>, row: int, col: nat)
    requires |rows| <= s.cfg.rows
  {
    && Receiver(t) && !t.sync && !t.wrap
    && t == s.(grid := PaintedGrid(BlankGrid(s.cfg.cols, s.cfg.rows), rows, 0, s.cfg.cols),
               cx := t.cx, cy := t.cy, wrap := false, pen := PLAIN, sync := false,
               input := t.input, wideDrawn := t.wideDrawn)
    && (1 <= row <= s.cfg.rows && col >= 1 ==> t.cy == row - 1 && t.cx == Min(col, s.cfg.cols) - 1)
  }

  /** Fed to any receiver of the frame's size, a frame of reproducible rows leaves that
      receiver showing exactly those rows: nothing of its old grid, no new history. */
  lemma FrameReproduces(s: State, wide: bool, rows: seq<Row>, row: int, col: nat)
    requires Receiver(s) && s.cfg.width(0x20) == 1 && 1 <= |rows| <= s.cfg.rows
    requires Printable(s.cfg.width, wide, rows, s.cfg.cols)
    ensures ShowsFrame(s, Feed(s, FrameBytes(rows, row, col, s.cfg.rows, s.cfg.cols)), rows, row, col)
  {
    hide Ready, Run, RowsBytes, CursorBytes, Opening, Closing, Printable, PaintedGrid;
    var r2 := CursorBytes(row, col, s.cfg.rows, s.cfg.cols) + Closing();
    var r1 := RowsBytes(rows, 0, s.cfg.cols) + r2;
    var bytes := FrameBytes(rows, row, col, s.cfg.rows, s.cfg.cols);
    assert bytes == Opening() + r1;
    assert Carrying(s, []) == s && [] + bytes == bytes;
    assert Feed(s, bytes) == Run(s, bytes) by { NotPanicked(s); }
    var a := RunOpening(s, r1);
    var b := PaintRows(a, wide, rows, 0, r2);
    var c := RunClosing(b, row, col);
  }

  lemma NotPanicked(s: State)
    requires Ready(s)
    ensures !s.panicked && Shape(s) && ParmOk(s)
  {
  }
}
