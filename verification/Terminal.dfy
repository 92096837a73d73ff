/** The terminal model as a value, and one pure function for each thing the
    byte machine of internal/screen/vt.go can do to it. The mutable model is
    class `VT` (VT.dfy), which is verified against these functions. */
module Terminal {
  import opened Bytes
  import opened Utf8

  const HIST_MAX: nat := 5000

  /** 0 is the default colour; bit 24 marks a 24-bit colour; anything else is a
      palette index plus one. Values are 32 bits wide. */
  type Color = c: int | 0 <= c < 0x1_0000_0000

  const DEFAULT_COLOR: Color := 0
  const TRUE_COLOR_BIT: int := 0x100_0000

  function PalColor(i: nat): Color {
    (i + 1) % 0x1_0000_0000
  }

  function RgbColor(r: Byte, g: Byte, b: Byte): Color {
    TRUE_COLOR_BIT + r * 0x1_0000 + g * 0x100 + b
  }

  datatype Style = Style(fg: Color, bg: Color, bold: bool, italic: bool, under: bool, reverse: bool)

  const PLAIN := Style(DEFAULT_COLOR, DEFAULT_COLOR, false, false, false, false)

  /** `cont` marks the second cell of a double-width rune; rune 0 is an empty cell. */
  datatype Cell = Cell(r: Rune, cont: bool, st: Style)

  const EMPTY := Cell(0, false, PLAIN)

  type Row = seq<Cell>

  /** Columns a rune takes; the width table is an arbitrary function. */
  type Width = w: int | 0 <= w <= 2

  datatype ParserState = Ground | Escape | Csi | Osc | OscEscape

  /** The whole model. `log` (every line ever scrolled out), `clears` (how often the
      scrollback was erased) and `wideDrawn` (whether a double-width rune was ever
      drawn) are history variables: no branch reads them. `panicked` records an
      index out of range, after which the program is gone. */
  datatype State = State(
    cfg: Setting, grid: seq<Row>, cx: nat, cy: nat, top: nat, bot: nat, wrap: bool,
    past: Past, pen: Style, saved: (nat, nat), input: Input, sync: bool,
    panicked: bool, wideDrawn: bool)

  datatype Setting = Setting(width: Rune -> Width, cols: nat, rows: nat)

  /** The retained history `lines`, and how many lines were scrolled out in all. */
  datatype Past = Past(lines: seq<Row>, total: nat, log: seq<Row>, clears: nat)

  /** The escape-sequence parser, and the unfinished rune carried to the next call. */
  datatype Input = Input(parser: ParserState, parm: seq<Byte>, csiPv: bool, pend: seq<Byte>)

  function BlankLine(cols: nat): (row: Row)
    ensures |row| == cols && forall x | 0 <= x < cols :: row[x] == EMPTY
  {
    seq(cols, _ => EMPTY)
  }

  function BlankGrid(cols: nat, rows: nat): (grid: seq<Row>)
    ensures |grid| == rows && forall y | 0 <= y < rows :: grid[y] == BlankLine(cols)
  {
    seq(rows, _ => BlankLine(cols))
  }

  function NewModel(width: Rune -> Width, cols: nat, rows: nat): State
    requires cols >= 1 && rows >= 1
  {
    State(Setting(width, cols, rows), BlankGrid(cols, rows), 0, 0, 0, rows - 1, false,
          Past([], 0, [], 0), PLAIN, (0, 0), Input(Ground, [], false, []), false, false, false)
  }

  /** What every operation needs in order to index the grid safely. */
  ghost predicate Shape(s: State) {
    && s.cfg.cols >= 1 && s.cfg.rows >= 1
    && |s.grid| == s.cfg.rows && (forall y | 0 <= y < s.cfg.rows :: |s.grid[y]| == s.cfg.cols)
    && s.cx < s.cfg.cols && s.cy < s.cfg.rows
  }

  /** No operation changes the size, the width table or the carried bytes. */
  ghost predicate SameSetting(s: State, t: State) {
    t.cfg == s.cfg && t.input.pend == s.input.pend
  }

  // ---- Cursor and scrolling ----

  function Clamp(v: int, n: nat): (c: nat)
    requires n >= 1
    ensures c < n
    ensures 0 <= v < n ==> c == v
  {
    if v < 0 then 0 else if v >= n then n - 1 else v
  }

  function MoveTo(s: State, x: int, y: int): (t: State)
    requires s.cfg.cols >= 1 && s.cfg.rows >= 1
    ensures t == s.(cx := t.cx, cy := t.cy) && t.cx < s.cfg.cols && t.cy < s.cfg.rows
  {
    s.(cx := Clamp(x, s.cfg.cols), cy := Clamp(y, s.cfg.rows))
  }

  /** `hist` with one more line, cut to its newest HIST_MAX lines. */
  function AppendHistory(hist: seq<Row>, line: Row): seq<Row> {
    var longer := hist + [line];
    if |longer| > HIST_MAX then longer[|longer| - HIST_MAX..] else longer
  }

  function Push(p: Past, line: Row): Past {
    Past(AppendHistory(p.lines, line), p.total + 1, p.log + [line], p.clears)
  }

  /** Lines top..bot move up by one and a blank line enters at bot. */
  function ScrollUp(grid: seq<Row>, top: nat, bot: nat, cols: nat): (g: seq<Row>)
    requires bot < |grid|
    ensures |g| == |grid|
    ensures forall y {:trigger g[y]} | 0 <= y < |grid| ::
      g[y] == (if y == bot then BlankLine(cols) else if top <= y < bot then grid[y + 1] else grid[y])
  {
    if top <= bot then grid[..top] + grid[top + 1..bot + 1] + [BlankLine(cols)] + grid[bot + 1..]
    else grid[bot := BlankLine(cols)]
  }

  /** Lines top..bot move down by one and a blank line enters at top. */
  function ScrollDown(grid: seq<Row>, top: nat, bot: nat, cols: nat): (g: seq<Row>)
    requires top < |grid| && bot < |grid|
    ensures |g| == |grid|
    ensures forall y {:trigger g[y]} | 0 <= y < |grid| ::
      g[y] == (if y == top then BlankLine(cols) else if top < y <= bot then grid[y - 1] else grid[y])
  {
    if top <= bot then grid[..top] + [BlankLine(cols)] + grid[top..bot] + grid[bot + 1..]
    else grid[top := BlankLine(cols)]
  }

  function LineFeed(s: State): (t: State)
    requires Shape(s)
    ensures Shape(t) && SameSetting(s, t) && t.input.parm == s.input.parm
  {
    if s.cy == s.bot then
      if s.top >= s.cfg.rows then s.(panicked := true)
      else
        var line := s.grid[s.top];
        s.(past := Push(s.past, line), grid := ScrollUp(s.grid, s.top, s.bot, s.cfg.cols))
    else if s.cy < s.cfg.rows - 1 then s.(cy := s.cy + 1)
    else s
  }

  function ReverseIndex(s: State): (t: State)
    requires Shape(s)
    ensures Shape(t) && SameSetting(s, t) && t.input.parm == s.input.parm
  {
    if s.cy == s.top then
      if s.bot >= s.cfg.rows then s.(panicked := true)
      else s.(grid := ScrollDown(s.grid, s.top, s.bot, s.cfg.cols))
    else if s.cy > 0 then s.(cy := s.cy - 1)
    else s
  }

  // ---- Drawing and erasing ----

  /** The row with a rune of width `w` written at column `x`. */
  function PutRune(row: Row, x: nat, w: nat, r: Rune, st: Style): (out: Row)
    requires x < |row|
    ensures |out| == |row|
  {
    var one := row[x := Cell(r, false, st)];
    if w == 2 && x + 1 < |row| then one[x + 1 := Cell(0, true, st)] else one
  }

  /** Completes a wrap that the previous rune left pending. */
  function TakeWrap(s: State): (t: State)
    requires Shape(s)
    ensures Shape(t) && SameSetting(s, t) && t.input.parm == s.input.parm
  {
    if s.wrap then
      var t := LineFeed(s.(cx := 0));
      if t.panicked then t else t.(wrap := false)
    else s
  }

  /** Moves to the next line when `w` columns do not fit. */
  function FitWidth(s: State, w: nat): (t: State)
    requires Shape(s)
    ensures Shape(t) && SameSetting(s, t) && t.input.parm == s.input.parm
  {
    if s.cx + w > s.cfg.cols then LineFeed(s.(cx := 0)) else s
  }

  /** Writes a rune of width `w` at the cursor and advances. */
  function PutCell(s: State, r: Rune, w: nat): (t: State)
    requires Shape(s)
    ensures Shape(t) && SameSetting(s, t) && t.input.parm == s.input.parm
  {
    var t := s.(grid := s.grid[s.cy := PutRune(s.grid[s.cy], s.cx, w, r, s.pen)],
                wideDrawn := s.wideDrawn || w == 2);
    if s.cx + w >= s.cfg.cols then t.(cx := s.cfg.cols - 1, wrap := true) else t.(cx := s.cx + w)
  }

  function Draw(s: State, r: Rune): (t: State)
    requires Shape(s)
    ensures Shape(t) && SameSetting(s, t) && t.input.parm == s.input.parm
  {
    var w := s.cfg.width(r);
    if w == 0 then s
    else
      var a := TakeWrap(s);
      if a.panicked then a
      else
        var b := FitWidth(a, w);
        if b.panicked then b
        else
          PutCell(b, r, w)
  }

  /** Cells lo..hi become empty. */
  function EraseSpan(row: Row, lo: nat, hi: nat): (out: Row)
    requires lo <= hi <= |row|
    ensures |out| == |row|
    ensures forall x | 0 <= x < |row| :: out[x] == if lo <= x < hi then EMPTY else row[x]
  {
    row[..lo] + BlankLine(hi - lo) + row[hi..]
  }

  function EraseLine(s: State, mode: nat): (t: State)
    requires Shape(s)
    ensures Shape(t) && SameSetting(s, t) && t.input.parm == s.input.parm
  {
    var row := s.grid[s.cy];
    match mode
    case 0 => s.(grid := s.grid[s.cy := EraseSpan(row, s.cx, s.cfg.cols)])
    case 1 => s.(grid := s.grid[s.cy := EraseSpan(row, 0, s.cx + 1)])
    case 2 => s.(grid := s.grid[s.cy := EraseSpan(row, 0, s.cfg.cols)])
    case _ => s
  }

  /** Lines lo..hi become blank. */
  function BlankRows(grid: seq<Row>, lo: nat, hi: nat, cols: nat): (g: seq<Row>)
    requires lo <= hi <= |grid|
    ensures |g| == |grid|
    ensures forall y | 0 <= y < |grid| :: g[y] == if lo <= y < hi then BlankLine(cols) else grid[y]
  {
    grid[..lo] + BlankGrid(cols, hi - lo) + grid[hi..]
  }

  function EraseDisplay(s: State, mode: nat): (t: State)
    requires Shape(s)
    ensures Shape(t) && SameSetting(s, t) && t.input.parm == s.input.parm
  {
    match mode
    case 0 => var t := EraseLine(s, 0);
              t.(grid := BlankRows(t.grid, s.cy + 1, s.cfg.rows, s.cfg.cols))
    case 1 => EraseLine(s.(grid := BlankRows(s.grid, 0, s.cy, s.cfg.cols)), 1)
    case 2 => s.(grid := BlankGrid(s.cfg.cols, s.cfg.rows))
    case 3 => s.(grid := BlankGrid(s.cfg.cols, s.cfg.rows),
                past := s.past.(lines := [], clears := s.past.clears + 1))
    case _ => s
  }

  // ---- Control sequences ----

  predicate IsParameterByte(b: Byte) {
    IsDigit(b) || b == SEMICOLON
  }

  predicate AllParameters(parm: seq<Byte>) {
    forall i | 0 <= i < |parm| :: IsParameterByte(parm[i])
  }

  /** Numbers of a parameter string, given those already read and the one being read. */
  function ParamsFrom(done: seq<nat>, cur: nat, bs: seq<Byte>): (ps: seq<nat>)
    requires AllParameters(bs)
    ensures |ps| > |done|
    decreases |bs|
  {
    if bs == [] then done + [cur]
    else if bs[0] == SEMICOLON then ParamsFrom(done + [cur], 0, bs[1..])
    else
      assert IsParameterByte(bs[0]);
      ParamsFrom(done, cur * 10 + (bs[0] - 0x30), bs[1..])
  }

  function Params(parm: seq<Byte>): seq<nat>
    requires AllParameters(parm)
  {
    if parm == [] then [] else ParamsFrom([], 0, parm)
  }

  function Arg(ps: seq<nat>, i: nat, def: nat): nat {
    if i < |ps| && ps[i] != 0 then ps[i] else def
  }

  /** The extended colour whose 38 or 48 is at `i`, and the index of its last parameter. */
  function ColorExt(ps: seq<nat>, i: nat): (r: (nat, Color))
    requires i < |ps|
    ensures i <= r.0 < |ps|
  {
    if i + 1 >= |ps| then (i, DEFAULT_COLOR)
    else if ps[i + 1] == 2 then
      if i + 4 < |ps| then (i + 4, RgbColor(ps[i + 2] % 256, ps[i + 3] % 256, ps[i + 4] % 256))
      else (|ps| - 1, DEFAULT_COLOR)
    else if ps[i + 1] == 5 then
      if i + 2 < |ps| then (i + 2, PalColor(ps[i + 2])) else (|ps| - 1, DEFAULT_COLOR)
    else (i + 1, DEFAULT_COLOR)
  }

  /** The pen after the rendition parameter at `i`, and where the next one starts. */
  function SgrOne(pen: Style, ps: seq<nat>, i: nat): (r: (Style, nat))
    requires i < |ps|
    ensures i < r.1 <= |ps|
  {
    var n := ps[i];
    if n == 0 then (PLAIN, i + 1)
    else if n == 1 then (pen.(bold := true), i + 1)
    else if n == 3 then (pen.(italic := true), i + 1)
    else if n == 4 then (pen.(under := true), i + 1)
    else if n == 7 then (pen.(reverse := true), i + 1)
    else if n == 22 then (pen.(bold := false), i + 1)
    else if n == 23 then (pen.(italic := false), i + 1)
    else if n == 24 then (pen.(under := false), i + 1)
    else if n == 27 then (pen.(reverse := false), i + 1)
    else if 30 <= n <= 37 then (pen.(fg := PalColor(n - 30)), i + 1)
    else if n == 38 then (pen.(fg := ColorExt(ps, i).1), ColorExt(ps, i).0 + 1)
    else if n == 39 then (pen.(fg := DEFAULT_COLOR), i + 1)
    else if 40 <= n <= 47 then (pen.(bg := PalColor(n - 40)), i + 1)
    else if n == 48 then (pen.(bg := ColorExt(ps, i).1), ColorExt(ps, i).0 + 1)
    else if n == 49 then (pen.(bg := DEFAULT_COLOR), i + 1)
    else if 90 <= n <= 97 then (pen.(fg := PalColor(n - 90 + 8)), i + 1)
    else if 100 <= n <= 107 then (pen.(bg := PalColor(n - 100 + 8)), i + 1)
    else (pen, i + 1)
  }

  function SgrFrom(pen: Style, ps: seq<nat>, i: nat): Style
    requires i <= |ps|
    decreases |ps| - i
  {
    if i == |ps| then pen
    else
      var (next, j) := SgrOne(pen, ps, i);
      SgrFrom(next, ps, j)
  }

  function Sgr(pen: Style, ps: seq<nat>): Style {
    if ps == [] then PLAIN else SgrFrom(pen, ps, 0)
  }

  /** DECSTBM: takes any two positive margins, in or out of the screen. */
  function SetMargins(s: State, ps: seq<nat>): (t: State)
    requires s.cfg.cols >= 1 && s.cfg.rows >= 1
    ensures t == s.(cx := t.cx, cy := t.cy, top := t.top, bot := t.bot) && t.cx < s.cfg.cols && t.cy < s.cfg.rows
  {
    var t := if |ps| >= 2 && ps[0] > 0 && ps[1] > 0 then s.(top := ps[0] - 1, bot := ps[1] - 1)
             else s.(top := 0, bot := s.cfg.rows - 1);
    MoveTo(t, 0, t.top)
  }

  /** Final bytes that leave the cells alone. */
  function CursorEffect(s: State, ps: seq<nat>, final: Byte): (t: State)
    requires Shape(s)
    ensures t == s.(cx := t.cx, cy := t.cy, top := t.top, bot := t.bot, pen := t.pen, sync := t.sync)
    ensures t.cx < s.cfg.cols && t.cy < s.cfg.rows
  {
    match final
    case 0x41 => MoveTo(s, s.cx, s.cy - Arg(ps, 0, 1))                  // A: CUU
    case 0x42 => MoveTo(s, s.cx, s.cy + Arg(ps, 0, 1))                  // B: CUD
    case 0x43 => MoveTo(s, s.cx + Arg(ps, 0, 1), s.cy)                  // C: CUF
    case 0x44 => MoveTo(s, s.cx - Arg(ps, 0, 1), s.cy)                  // D: CUB
    case 0x47 => MoveTo(s, Arg(ps, 0, 1) - 1, s.cy)                     // G: CHA
    case 0x64 => MoveTo(s, s.cx, Arg(ps, 0, 1) - 1)                     // d: VPA
    case 0x48 => MoveTo(s, Arg(ps, 1, 1) - 1, Arg(ps, 0, 1) - 1)        // H: CUP
    case 0x66 => MoveTo(s, Arg(ps, 1, 1) - 1, Arg(ps, 0, 1) - 1)        // f: HVP
    case 0x72 => if s.input.csiPv then s else SetMargins(s, ps)               // r: DECSTBM
    case 0x6d => s.(pen := Sgr(s.pen, ps))                              // m: SGR
    case 0x68 => if s.input.csiPv && 2026 in ps then s.(sync := true) else s  // h: DECSET
    case 0x6c => if s.input.csiPv && 2026 in ps then s.(sync := false) else s // l: DECRST
    case _ => s
  }

  /** The effect of the final byte of a control sequence, before the wrap flag is dropped. */
  function CsiEffect(s: State, ps: seq<nat>, final: Byte): (t: State)
    requires Shape(s)
    ensures Shape(t) && SameSetting(s, t) && t.input.parm == s.input.parm
  {
    var mode := if ps == [] then 0 else ps[0];
    if final == 0x4a then EraseDisplay(s, mode)     // J: ED
    else if final == 0x4b then EraseLine(s, mode)   // K: EL
    else CursorEffect(s, ps, final)
  }

  ghost predicate ParmOk(s: State) {
    AllParameters(s.input.parm)
  }

  function CsiDispatch(s: State, final: Byte): (t: State)
    requires Shape(s) && ParmOk(s)
    ensures Shape(t) && SameSetting(s, t) && ParmOk(t)
  {
    var t := CsiEffect(s, Params(s.input.parm), final);
    t.(wrap := false, input := t.input.(parser := Ground))
  }

  // ---- The byte machine ----

  function InState(s: State, parser: ParserState): (t: State)
    ensures Shape(s) ==> Shape(t)
    ensures SameSetting(s, t) && (ParmOk(s) ==> ParmOk(t))
  {
    s.(input := s.input.(parser := parser))
  }

  function Carrying(s: State, pend: seq<Byte>): State {
    s.(input := s.input.(pend := pend))
  }

  /** What a byte that is not text does in the ground state. */
  function GroundControl(s: State, c: Byte): (t: State)
    requires Shape(s)
    ensures Shape(t) && SameSetting(s, t) && t.input.parm == s.input.parm
  {
    if c == ESC then InState(s, Escape)
    else if c == 0x0d then s.(cx := 0, wrap := false)
    else if c == 0x0a then
      var t := LineFeed(s);
      if t.panicked then t else t.(wrap := false)
    else if c == 0x08 then s.(cx := if s.cx > 0 then s.cx - 1 else 0, wrap := false)
    else if c == 0x09 then s.(cx := Clamp((s.cx / 8 + 1) * 8, s.cfg.cols))
    else s
  }

  function EscapeByte(s: State, c: Byte): (t: State)
    requires Shape(s) && ParmOk(s)
    ensures Shape(t) && SameSetting(s, t) && ParmOk(t)
  {
    var g := InState(s, Ground);
    if c == 0x5b then s.(input := s.input.(parser := Csi, parm := [], csiPv := false))     // [
    else if c == 0x5d then InState(s, Osc)                            // ]
    else if c == 0x37 then g.(saved := (s.cx, s.cy))                 // 7: DECSC
    else if c == 0x38 then MoveTo(g, s.saved.0, s.saved.1)                      // 8: DECRC
    else if c == 0x44 then LineFeed(g)                                  // D: IND
    else if c == 0x4d then ReverseIndex(g)                              // M: RI
    else if c == 0x45 then LineFeed(g.(cx := 0))                        // E: NEL
    else g
  }

  function CsiByte(s: State, c: Byte): (t: State)
    requires Shape(s) && ParmOk(s)
    ensures Shape(t) && SameSetting(s, t) && ParmOk(t)
  {
    if c == 0x3f then s.(input := s.input.(csiPv := true))
    else if c == 0x3e || c == 0x3d then s
    else if IsParameterByte(c) then s.(input := s.input.(parm := s.input.parm + [c]))
    else CsiDispatch(s, c)
  }

  function OscByte(s: State, c: Byte): (t: State)
    requires Shape(s) && ParmOk(s)
    ensures Shape(t) && SameSetting(s, t) && ParmOk(t)
  {
    if c == 0x07 then InState(s, Ground) else if c == ESC then InState(s, OscEscape) else s
  }

  /** One byte outside text. */
  function ControlByte(s: State, c: Byte): (t: State)
    requires Shape(s) && ParmOk(s)
    ensures Shape(t) && SameSetting(s, t) && ParmOk(t)
  {
    hide GroundControl, EscapeByte, CsiByte, OscByte, InState, Shape;
    match s.input.parser
    case Ground => GroundControl(s, c)
    case Escape => EscapeByte(s, c)
    case Csi => CsiByte(s, c)
    case Osc => OscByte(s, c)
    case OscEscape => InState(s, Ground)
  }

  /** Text bytes are those the ground state hands to the UTF-8 reader. */
  predicate IsText(s: State, c: Byte) {
    s.input.parser == Ground && c >= 0x20
  }

  /** Draws the rune that `bs`, one whole sequence, encodes. */
  function DrawSequence(s: State, bs: seq<Byte>): (t: State)
    requires Shape(s)
    requires |bs| >= 1 && |bs| == SequenceLength(bs[0])
    ensures Shape(t) && SameSetting(s, t) && t.input.parm == s.input.parm
  {
    if |bs| == 1 then Draw(s, bs[0]) else Draw(s, DecodeFirst(bs))
  }

  /** Runs the machine over `p`; an unfinished rune at the end is carried in `pend`. */
  function Run(s: State, p: seq<Byte>): (t: State)
    requires Shape(s) && ParmOk(s)
    ensures Shape(t) && ParmOk(t)
    decreases |p|
  {
    if p == [] || s.panicked then s
    else if IsText(s, p[0]) then
      var n := SequenceLength(p[0]);
      if n == 0 then Run(s, p[1..])
      else if n > |p| then Carrying(s, p)
      else
        Run(DrawSequence(s, p[..n]), p[n..])
    else
      Run(ControlByte(s, p[0]), p[1..])
  }

  /** One call of Feed: the bytes carried from the previous call come first. */
  function Feed(s: State, p: seq<Byte>): (t: State)
    requires Shape(s) && ParmOk(s)
    ensures Shape(t) && ParmOk(t)
  {
    if s.panicked then s else Run(Carrying(s, []), s.input.pend + p)
  }
}
