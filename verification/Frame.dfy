/** The byte frame that internal/screen/scroll.go prints for a viewport. */
module Frame {
  import opened Bytes
  import opened Utf8
  import opened Terminal
  import opened ControlSequences

  function TrueColor(c: Color): bool {
    c / TRUE_COLOR_BIT % 2 == 1
  }

  function SgrBytes(ns: seq<nat>): seq<Byte> {
    CsiBytes(false, Numerals(ns), 0x6d)
  }

  /** Parameters that select colour `c`; `which` is 38 or 48. */
  function ColorParams(c: Color, which: nat): seq<nat>
    requires c != DEFAULT_COLOR
  {
    if TrueColor(c) then [which, 2, c / 0x1_0000 % 256, c / 0x100 % 256, c % 256]
    else [which, 5, c - 1]
  }

  function ColorSeq(c: Color, fg: bool): seq<Byte> {
    if c == DEFAULT_COLOR then [] else SgrBytes(ColorParams(c, if fg then 38 else 48))
  }

  function When(on: bool, n: nat): seq<Byte> {
    if on then SgrBytes([n]) else []
  }

  /** Reset, then everything that differs from the plain style. */
  function StyleBytes(st: Style): seq<Byte> {
    SgrBytes([0]) + When(st.bold, 1) + When(st.italic, 3) + When(st.under, 4) + When(st.reverse, 7)
    + ColorSeq(st.fg, true) + ColorSeq(st.bg, false)
  }

  function CellAt(row: Row, x: nat): Cell {
    if x < |row| then row[x] else EMPTY
  }

  /** What is printed for a cell: an empty one is a plain space. */
  function PrintedRune(c: Cell): Rune {
    if c.r != 0 then c.r else 0x20
  }

  function PrintedStyle(c: Cell): Style {
    if c.r != 0 then c.st else PLAIN
  }

  /** Columns x.. of a row. `first` or a change of style prints the style; `cur` is the
      style in force. Continuation cells print nothing. */
  function RowBytes(row: Row, x: nat, vcols: nat, first: bool, cur: Style): seq<Byte>
    requires x <= vcols
    decreases vcols - x
  {
    if x == vcols then SgrBytes([0])
    else
      var c := CellAt(row, x);
      if c.cont then RowBytes(row, x + 1, vcols, first, cur)
      else
        var st := PrintedStyle(c);
        (if first || st != cur then StyleBytes(st) else []) + Encode(PrintedRune(c))
        + RowBytes(row, x + 1, vcols, false, st)
  }

  const NEWLINE: seq<Byte> := [0x0d, 0x0a]

  /** Rows i.., separated by CR LF. */
  function RowsBytes(rows: seq<Row>, i: nat, vcols: nat): seq<Byte>
    requires i <= |rows|
    decreases |rows| - i
  {
    if i == |rows| then []
    else
      var separator := if i + 1 < |rows| then NEWLINE else [];
      RowBytes(rows[i], 0, vcols, true, PLAIN) + separator + RowsBytes(rows, i + 1, vcols)
  }

  /** Begin synchronized output, hide the cursor, clear, go to the last line, go home. */
  function Opening(): seq<Byte> {
    CsiBytes(true, Numerals([2026]), 0x68) + CsiBytes(true, Numerals([25]), 0x6c)
    + CsiBytes(false, Numerals([2]), 0x4a) + CsiBytes(false, Numerals([9999, 1]), 0x48)
    + CsiBytes(false, [], 0x48)
  }

  /** Puts the cursor at 1-based (row, col) and shows it, when the row is in view. */
  function CursorBytes(row: int, col: nat, vrows: nat, vcols: nat): seq<Byte> {
    if 1 <= row <= vrows then
      CsiBytes(false, Numerals([row, if col > vcols then vcols else col]), 0x48)
      + CsiBytes(true, Numerals([25]), 0x68)
    else []
  }

  function Closing(): seq<Byte> {
    CsiBytes(true, Numerals([2026]), 0x6c)
  }

  /** The whole frame for the viewport `rows` of a model whose cursor is on viewport
      row `row` (1-based, possibly out of view), column `col`. */
  function FrameBytes(rows: seq<Row>, row: int, col: nat, vrows: nat, vcols: nat): seq<Byte> {
    Opening() + RowsBytes(rows, 0, vcols) + CursorBytes(row, col, vrows, vcols) + Closing()
  }

  /** Byte by byte: CSI ? 2026 h, CSI ? 25 l, CSI 2 J, CSI 9999 ; 1 H and CSI H. */
  lemma OpeningBytes()
    ensures Opening() ==
      [ESC, 0x5b, 0x3f, 0x32, 0x30, 0x32, 0x36, 0x68] + [ESC, 0x5b, 0x3f, 0x32, 0x35, 0x6c]
      + [ESC, 0x5b, 0x32, 0x4a] + [ESC, 0x5b, 0x39, 0x39, 0x39, 0x39, 0x3b, 0x31, 0x48] + [ESC, 0x5b, 0x48]
  {
    FixedNumerals();
    hide Decimal, Numerals;
    assert CsiBytes(true, Numerals([2026]), 0x68) == [ESC, 0x5b, 0x3f, 0x32, 0x30, 0x32, 0x36, 0x68];
    assert CsiBytes(true, Numerals([25]), 0x6c) == [ESC, 0x5b, 0x3f, 0x32, 0x35, 0x6c];
    assert CsiBytes(false, Numerals([2]), 0x4a) == [ESC, 0x5b, 0x32, 0x4a];
    assert CsiBytes(false, Numerals([9999, 1]), 0x48) == [ESC, 0x5b, 0x39, 0x39, 0x39, 0x39, 0x3b, 0x31, 0x48];
    assert CsiBytes(false, [], 0x48) == [ESC, 0x5b, 0x48];
    hide CsiBytes;
  }

  lemma FixedNumerals()
    ensures Numerals([2026]) == [0x32, 0x30, 0x32, 0x36] && Numerals([25]) == [0x32, 0x35] && Numerals([2]) == [0x32]
    ensures Numerals([9999, 1]) == [0x39, 0x39, 0x39, 0x39, 0x3b, 0x31]
  {
    assert Decimal(202) == [0x32, 0x30, 0x32];
    assert Decimal(999) == [0x39, 0x39, 0x39];
    TwoNumerals(9999, 1);
  }

  /** A cursor in view is addressed and shown by CSI ? 25 h, one out of view stays hidden; then
      CSI ? 2026 l. */
  lemma ClosingBytes(row: int, col: nat, vrows: nat, vcols: nat)
    ensures Closing() == [ESC, 0x5b, 0x3f, 0x32, 0x30, 0x32, 0x36, 0x6c]
    ensures CursorBytes(row, col, vrows, vcols) == if !(1 <= row <= vrows) then []
      else [ESC, 0x5b] + Decimal(row) + [SEMICOLON] + Decimal(if col <= vcols then col else vcols) + [0x48]
           + [ESC, 0x5b, 0x3f, 0x32, 0x35, 0x68]
  {
    FixedNumerals();
    if 1 <= row <= vrows {
      TwoNumerals(row, if col <= vcols then col else vcols);
    }
    hide Decimal, Numerals;
  }

  lemma TwoNumerals(a: nat, b: nat)
    ensures Numerals([a, b]) == Decimal(a) + [SEMICOLON] + Decimal(b)
  {
    hide Decimal;
    assert [a, b][1..] == [b];
  }

  // ---- What a receiver makes of it ----

  /** Only the low 24 bits of a colour with the 24-bit mark are printed. */
  function Seen(c: Color): Color {
    if TrueColor(c) then TRUE_COLOR_BIT + c % TRUE_COLOR_BIT else c
  }

  /** A colour survives exactly if it has no bits beyond the 24-bit mark. */
  predicate ColorKept(c: Color) {
    !TrueColor(c) || c < 2 * TRUE_COLOR_BIT
  }

  lemma SeenIsExact(c: Color)
    ensures Seen(c) == c <==> ColorKept(c)
  {
  }

  function SeenStyle(st: Style): Style {
    st.(fg := Seen(st.fg), bg := Seen(st.bg))
  }

  /** The cell a receiver ends up with. */
  function Shown(c: Cell): Cell {
    if c.cont then Cell(0, true, SeenStyle(c.st))
    else Cell(PrintedRune(c), false, SeenStyle(PrintedStyle(c)))
  }

  /** The state after an SGR with the numbers `ns`. */
  function AfterSgr(s: State, ns: seq<nat>): State {
    s.(pen := Sgr(s.pen, ns), wrap := false, input := Input(Ground, Numerals(ns), false, s.input.pend))
  }

  lemma RunSgr(s: State, ns: seq<nat>, rest: seq<Byte>)
    requires Ready(s)
    ensures Ready(AfterSgr(s, ns))
    ensures Run(s, SgrBytes(ns) + rest) == Run(AfterSgr(s, ns), rest)
  {
    hide Shape, Numerals, Run, Sgr;
    RunCsi(s, false, Numerals(ns), 0x6d, rest);
    ParamsInvertNumerals(ns);
    SameShape(s, AfterSgr(s, ns));
  }

  lemma LowBits(c: nat, high: nat, low: nat)
    requires c == high * TRUE_COLOR_BIT + low && low < TRUE_COLOR_BIT
    ensures c % TRUE_COLOR_BIT == low
  {
  }

  lemma ColorDigits(c: nat)
    ensures c % TRUE_COLOR_BIT == c / 0x1_0000 % 256 * 0x1_0000 + c / 0x100 % 256 * 0x100 + c % 256
  {
    var a := c / 0x100;
    var b := a / 0x100;
    assert b == c / 0x1_0000;
    assert c == a * 0x100 + c % 0x100 && a == b * 0x100 + a % 0x100 && b == b / 0x100 * 0x100 + b % 0x100;
    LowBits(c, b / 0x100, b % 256 * 0x1_0000 + a % 256 * 0x100 + c % 256);
  }

  /** A list of parameters that one rendition uses up. */
  lemma SgrWhole(pen: Style, ns: seq<nat>)
    requires ns != [] && SgrOne(pen, ns, 0).1 == |ns|
    ensures Sgr(pen, ns) == SgrOne(pen, ns, 0).0
  {
    var next := SgrOne(pen, ns, 0).0;
    hide SgrOne;
    assert SgrFrom(next, ns, |ns|) == next;
  }

  lemma DigitsSeen(c: Color)
    requires TrueColor(c)
    ensures RgbColor(c / 0x1_0000 % 256, c / 0x100 % 256, c % 256) == Seen(c)
  {
    ColorDigits(c);
  }

  lemma ExtendedColor(c: Color, which: nat)
    requires c != DEFAULT_COLOR
    ensures ColorExt(ColorParams(c, which), 0) == (|ColorParams(c, which)| - 1, Seen(c))
  {
    if TrueColor(c) {
      DigitsSeen(c);
      hide Seen, RgbColor, PalColor;
      var ps := [which, 2, c / 0x1_0000 % 256, c / 0x100 % 256, c % 256];
      assert ColorParams(c, which) == ps;
      hide TrueColor;
      DigitsRead(which, c / 0x1_0000 % 256, c / 0x100 % 256, c % 256);
    } else {
      PaletteRead(which, c - 1);
      assert PalColor(c - 1) == c;
    }
  }

  lemma DigitsRead(which: nat, r: Byte, g: Byte, b: Byte)
    ensures ColorExt([which, 2, r, g, b], 0) == (4, RgbColor(r, g, b))
  {
  }

  lemma PaletteRead(which: nat, n: nat)
    ensures ColorExt([which, 5, n], 0) == (2, PalColor(n))
  {
  }

  lemma SgrColor(pen: Style, c: Color)
    requires c != DEFAULT_COLOR
    ensures Sgr(pen, ColorParams(c, 38)) == pen.(fg := Seen(c))
    ensures Sgr(pen, ColorParams(c, 48)) == pen.(bg := Seen(c))
  {
    ExtendedColor(c, 38);
    ExtendedColor(c, 48);
    hide ColorExt, Seen;
    assert ColorParams(c, 38)[0] == 38 && ColorParams(c, 48)[0] == 48;
    hide ColorParams;
    SgrWhole(pen, ColorParams(c, 38));
    SgrWhole(pen, ColorParams(c, 48));
  }

  /** The pen after one of the flag renditions. */
  function Flagged(pen: Style, n: nat): Style {
    if n == 0 then PLAIN
    else if n == 1 then pen.(bold := true)
    else if n == 3 then pen.(italic := true)
    else if n == 4 then pen.(under := true)
    else pen.(reverse := true)
  }

  lemma SgrFlag(pen: Style, n: nat)
    requires n in {0, 1, 3, 4, 7}
    ensures Sgr(pen, [n]) == Flagged(pen, n)
  {
    SgrWhole(pen, [n]);
  }

  /** A state that differs from `s` only in pen, wrap flag and last parameters. */
  ghost predicate Penned(s: State, t: State, pen: Style) {
    && Ready(t) && t == s.(pen := pen, wrap := false, input := t.input)
    && t.input.pend == s.input.pend
  }

  lemma RunWhen(s: State, on: bool, n: nat, rest: seq<Byte>) returns (t: State)
    requires Ready(s) && !s.wrap && n in {1, 3, 4, 7}
    ensures Penned(s, t, if on then Flagged(s.pen, n) else s.pen)
    ensures Run(s, When(on, n) + rest) == Run(t, rest)
  {
    hide Shape, Run, Sgr, SgrBytes, Flagged;
    if on {
      t := AfterSgr(s, [n]);
      RunSgr(s, [n], rest);
      SgrFlag(s.pen, n);
    } else {
      t := s;
      assert [] + rest == rest;
    }
  }

  lemma RunColor(s: State, c: Color, fg: bool, rest: seq<Byte>) returns (t: State)
    requires Ready(s) && !s.wrap && (c == DEFAULT_COLOR ==> (if fg then s.pen.fg else s.pen.bg) == c)
    ensures Penned(s, t, if fg then s.pen.(fg := Seen(c)) else s.pen.(bg := Seen(c)))
    ensures Run(s, ColorSeq(c, fg) + rest) == Run(t, rest)
  {
    hide Shape, Run, Sgr, SgrBytes, ColorParams;
    if c == DEFAULT_COLOR {
      t := s;
      assert [] + rest == rest;
    } else {
      var ns := ColorParams(c, if fg then 38 else 48);
      t := AfterSgr(s, ns);
      RunSgr(s, ns, rest);
      SgrColor(s.pen, c);
    }
  }

  lemma PennedTwice(s: State, t: State, u: State, p: Style, q: Style)
    requires Penned(s, t, p) && Penned(t, u, q)
    ensures Penned(s, u, q)
  {
    hide Ready;
  }

  /** Reset and the four flags. */
  lemma RunFlags(s: State, st: Style, rest: seq<Byte>) returns (t: State)
    requires Ready(s)
    ensures Penned(s, t, st.(fg := DEFAULT_COLOR, bg := DEFAULT_COLOR))
    ensures Run(s, SgrBytes([0]) + (When(st.bold, 1) + (When(st.italic, 3) + (When(st.under, 4)
              + (When(st.reverse, 7) + rest))))) == Run(t, rest)
  {
    hide Run, SgrBytes, When, Ready, Sgr;
    var r4 := When(st.reverse, 7) + rest;
    var r3 := When(st.under, 4) + r4;
    var r2 := When(st.italic, 3) + r3;
    var r1 := When(st.bold, 1) + r2;
    RunSgr(s, [0], r1);
    SgrFlag(s.pen, 0);
    var t0 := AfterSgr(s, [0]);
    var t1 := RunWhen(t0, st.bold, 1, r2);
    var t2 := RunWhen(t1, st.italic, 3, r3);
    PennedTwice(t0, t1, t2, t1.pen, t2.pen);
    var t3 := RunWhen(t2, st.under, 4, r4);
    PennedTwice(t0, t2, t3, t2.pen, t3.pen);
    t := RunWhen(t3, st.reverse, 7, rest);
    PennedTwice(t0, t3, t, t3.pen, t.pen);
  }

  /** The style sequences select that style, whatever the pen was. */
  lemma RunStyle(s: State, st: Style, rest: seq<Byte>) returns (t: State)
    requires Ready(s)
    ensures Penned(s, t, SeenStyle(st))
    ensures Run(s, StyleBytes(st) + rest) == Run(t, rest)
  {
    hide Run, SgrBytes, When, ColorSeq, Seen, Ready;
    var r6 := ColorSeq(st.bg, false) + rest;
    var r5 := ColorSeq(st.fg, true) + r6;
    assert StyleBytes(st) + rest == SgrBytes([0]) + (When(st.bold, 1) + (When(st.italic, 3)
        + (When(st.under, 4) + (When(st.reverse, 7) + r5))));
    var t4 := RunFlags(s, st, r5);
    var t5 := RunColor(t4, st.fg, true, r6);
    PennedTwice(s, t4, t5, t4.pen, t5.pen);
    t := RunColor(t5, st.bg, false, rest);
    PennedTwice(s, t5, t, t5.pen, t.pen);
  }
}
