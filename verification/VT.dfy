/** The mutable terminal model of internal/screen/vt.go, verified against the
    functions of module Terminal. Rows are shared by reference exactly as there:
    scrolling moves row objects, history holds copies, erasing writes in place. */
module VTModel {
  import opened Bytes
  import opened Utf8
  import opened Terminal

  method NewBlankLine(cols: nat) returns (row: array<Cell>)
    ensures fresh(row) && row.Length == cols && row[..] == BlankLine(cols)
  {
    row := new Cell[cols](_ => EMPTY);
  }

  method CopyLine(src: array<Cell>) returns (row: array<Cell>)
    ensures fresh(row) && row.Length == src.Length && row[..] == src[..]
  {
    row := new Cell[src.Length](x requires 0 <= x < src.Length reads src => src[x]);
  }

  /** `rows` distinct new rows. */
  method NewBlank(cols: nat, rows: nat) returns (b: seq<array<Cell>>)
    ensures |b| == rows
    ensures forall y | 0 <= y < rows :: fresh(b[y]) && b[y].Length == cols && b[y][..] == BlankLine(cols)
    ensures forall i, j | 0 <= i < j < rows :: b[i] != b[j]
  {
    b := [];
    while |b| < rows
      invariant |b| <= rows
      invariant forall y | 0 <= y < |b| :: fresh(b[y]) && b[y].Length == cols && b[y][..] == BlankLine(cols)
      invariant forall i, j | 0 <= i < j < |b| :: b[i] != b[j]
    {
      var row := NewBlankLine(cols);
      b := b + [row];
    }
  }

  /** The arrays hold, line by line, the rows of `lines`. */
  ghost predicate Spells(arrays: seq<array<Cell>>, lines: seq<Row>, cols: nat)
    reads arrays
  {
    && |arrays| == |lines|
    && (forall y | 0 <= y < |arrays| :: arrays[y].Length == cols && arrays[y][..] == lines[y])
  }

  ghost predicate Distinct(arrays: seq<array<Cell>>) {
    forall i, j | 0 <= i < j < |arrays| :: arrays[i] != arrays[j]
  }

  /** Moves references top..bot up by one; the last of them is left doubled. */
  method ShiftUp(b: seq<array<Cell>>, top: nat, bot: nat) returns (c: seq<array<Cell>>)
    requires bot < |b|
    ensures |c| == |b|
    ensures forall k {:trigger c[k]} | 0 <= k < |b| :: c[k] == (if top <= k < bot then b[k + 1] else b[k])
  {
    c := b;
    var y := top;
    while y < bot
      invariant top <= y && (y == top || y <= bot)
      invariant |c| == |b|
      invariant forall k {:trigger c[k]} | 0 <= k < |b| :: c[k] == (if top <= k < y then b[k + 1] else b[k])
    {
      c := c[y := c[y + 1]];
      y := y + 1;
    }
  }

  /** History with one more line, cut to its newest HIST_MAX lines. */
  function AppendLine(hist: seq<array<Cell>>, line: array<Cell>): seq<array<Cell>> {
    var longer := hist + [line];
    if |longer| > HIST_MAX then longer[|longer| - HIST_MAX..] else longer
  }

  lemma SpellsAt(arrays: seq<array<Cell>>, lines: seq<Row>, cols: nat, y: nat)
    requires Spells(arrays, lines, cols) && y < |arrays|
    ensures arrays[y].Length == cols && arrays[y][..] == lines[y]
  {
  }

  lemma AppendLineSpells(hist: seq<array<Cell>>, lines: seq<Row>, line: array<Cell>, row: Row, cols: nat)
    requires Spells(hist, lines, cols) && line.Length == cols && line[..] == row
    ensures Spells(AppendLine(hist, line), AppendHistory(lines, row), cols)
    ensures forall a | a in AppendLine(hist, line) :: a in hist || a == line
  {
  }

  lemma ShiftUpSpells(b: seq<array<Cell>>, c: seq<array<Cell>>, row: array<Cell>, grid: seq<Row>,
                      top: nat, bot: nat, cols: nat)
    requires Spells(b, grid, cols) && Distinct(b) && row !in b
    requires bot < |b| && |c| == |b|
    requires forall k {:trigger c[k]} | 0 <= k < |b| :: c[k] == (if top <= k < bot then b[k + 1] else b[k])
    requires row.Length == cols && row[..] == BlankLine(cols)
    ensures Spells(c[bot := row], ScrollUp(grid, top, bot, cols), cols) && Distinct(c[bot := row])
    ensures forall a | a in c[bot := row] :: a in b || a == row
  {
  }

  /** Moves references top..bot down by one; the first of them is left doubled. */
  method ShiftDown(b: seq<array<Cell>>, top: nat, bot: nat) returns (c: seq<array<Cell>>)
    requires bot < |b|
    ensures |c| == |b|
    ensures forall k {:trigger c[k]} | 0 <= k < |b| :: c[k] == (if top < k <= bot then b[k - 1] else b[k])
  {
    c := b;
    var y: int := bot;
    while y > top
      invariant y <= bot && (y == bot || y >= top)
      invariant |c| == |b|
      invariant forall k {:trigger c[k]} | 0 <= k < |b| :: c[k] == (if y < k <= bot then b[k - 1] else b[k])
    {
      c := c[y := c[y - 1]];
      y := y - 1;
    }
  }

  lemma ShiftDownSpells(b: seq<array<Cell>>, c: seq<array<Cell>>, row: array<Cell>, grid: seq<Row>,
                        top: nat, bot: nat, cols: nat)
    requires Spells(b, grid, cols) && Distinct(b) && row !in b
    requires top < |b| && bot < |b| && |c| == |b|
    requires forall k {:trigger c[k]} | 0 <= k < |b| :: c[k] == (if top < k <= bot then b[k - 1] else b[k])
    requires row.Length == cols && row[..] == BlankLine(cols)
    ensures Spells(c[top := row], ScrollDown(grid, top, bot, cols), cols) && Distinct(c[top := row])
    ensures forall a | a in c[top := row] :: a in b || a == row
  {
  }

  /** Splits a parameter string at its semicolons and reads the numbers. */
  method ReadParams(parm: seq<Byte>) returns (ps: seq<nat>)
    requires AllParameters(parm)
    ensures ps == Params(parm)
  {
    ps := [];
    if parm == [] {
      return;
    }
    var n: nat := 0;
    for i := 0 to |parm|
      invariant ParamsFrom(ps, n, parm[i..]) == ParamsFrom([], 0, parm)
    {
      assert parm[i..][1..] == parm[i + 1..];
      assert IsParameterByte(parm[i]);
      if parm[i] == SEMICOLON {
        ps, n := ps + [n], 0;
      } else {
        n := n * 10 + (parm[i] as int - 0x30);
      }
    }
    ps := ps + [n];
  }

  class VT {
    const width: Rune -> Width
    const cols: nat
    const rows: nat
    var buf: seq<array<Cell>>
    var cx: int
    var cy: int
    var top: nat
    var bot: nat
    var hist: seq<array<Cell>>
    var histTotal: nat
    var wrap: bool
    var pen: Style
    var scx: nat
    var scy: nat
    var st: ParserState
    var parm: seq<Byte>
    var csiPv: bool
    var pend: seq<Byte>
    var syncActive: bool
    var panicked: bool

    // What the rows spell out, and the history variables of the model.
    ghost var grid: seq<Row>
    ghost var past: Past
    ghost var wideDrawn: bool

    /** The grid: distinct rows that spell out `grid`. */
    ghost predicate GridValid()
      reads `buf, `grid, buf
    {
      |buf| == rows && Spells(buf, grid, cols) && Distinct(buf)
    }

    /** The history spells out the retained lines. */
    ghost predicate HistValid()
      reads `hist, `histTotal, `past, hist
    {
      Spells(hist, past.lines, cols) && histTotal == past.total
    }

    /** No history line is also a row of the grid. */
    ghost predicate Disjoint()
      reads `buf, `hist
    {
      forall a | a in buf :: a !in hist
    }

    ghost predicate Valid()
      reads this, buf, hist
      ensures Valid() ==> 0 <= cx && 0 <= cy && Shape(Abs()) && ParmOk(Abs())
    {
      && |buf| == rows && GridValid() && HistValid() && Disjoint()
      && 0 <= cx < cols && 0 <= cy < rows
      && AllParameters(parm)
    }

    /** The model value these fields stand for. */
    ghost function Abs(): State
      requires 0 <= cx && 0 <= cy
      reads this
    {
      State(Setting(width, cols, rows), grid, cx, cy, top, bot, wrap, past, pen, (scx, scy),
            Input(st, parm, csiPv, pend), syncActive, panicked, wideDrawn)
    }

    constructor (width: Rune -> Width, cols: nat, rows: nat)
      requires cols >= 1 && rows >= 1
      ensures Valid() && Abs() == NewModel(width, cols, rows)
      ensures hist == [] && forall y | 0 <= y < rows :: fresh(buf[y])
    {
      this.width, this.cols, this.rows := width, cols, rows;
      cx, cy, top, bot := 0, 0, 0, rows - 1;
      hist, histTotal, wrap, pen, scx, scy := [], 0, false, PLAIN, 0, 0;
      st, parm, csiPv, pend, syncActive, panicked := Ground, [], false, [], false, false;
      grid, past, wideDrawn := BlankGrid(cols, rows), Past([], 0, [], 0), false;
      var b := NewBlank(cols, rows);
      buf := b;
    }

    method ClampCursor()
      requires cols >= 1 && rows >= 1
      modifies `cx, `cy
      ensures cx == Clamp(old(cx), cols) && cy == Clamp(old(cy), rows)
    {
      if cx < 0 { cx := 0; }
      if cx >= cols { cx := cols - 1; }
      if cy < 0 { cy := 0; }
      if cy >= rows { cy := rows - 1; }
    }

    /** What `Valid` says of the rows, from its parts. */
    lemma RowsValid()
      requires |buf| == rows && Spells(buf, grid, cols) && Distinct(buf)
      requires Spells(hist, past.lines, cols) && histTotal == past.total
      requires forall a | a in buf :: a !in hist
      ensures GridValid() && HistValid() && Disjoint()
    {
    }

    lemma RowsParts()
      requires GridValid() && HistValid() && Disjoint()
      ensures |buf| == rows && Spells(buf, grid, cols) && Distinct(buf)
      ensures Spells(hist, past.lines, cols) && histTotal == past.total
      ensures forall a | a in buf :: a !in hist
    {
    }

    /** Copies the top line of the region into history, moves the rows of the region
        up by one and opens a blank one at the bottom. */
    method ScrollOut()
      requires Valid() && top < rows && bot < rows
      modifies `buf, `grid, `hist, `histTotal, `past
      ensures Valid() && past == Push(old(past), old(grid)[top])
      ensures grid == ScrollUp(old(grid), top, bot, cols)
      ensures forall a | a in buf :: a in old(buf) || fresh(a)
      ensures forall a | a in hist :: a in old(hist) || fresh(a)
    {
      hide AllParameters, Shape, ScrollUp, AppendHistory, AppendLine, Spells, Distinct, GridValid, HistValid, Disjoint;
      RowsParts();
      var line := CopyLine(buf[top]);
      var shifted := ShiftUp(buf, top, bot);
      var row := NewBlankLine(cols);
      SpellsAt(buf, grid, cols, top);
      AppendLineSpells(hist, past.lines, line, grid[top], cols);
      ShiftUpSpells(buf, shifted, row, grid, top, bot, cols);
      hist := AppendLine(hist, line);
      histTotal := histTotal + 1;
      past := Push(past, grid[top]);
      buf := shifted[bot := row];
      grid := ScrollUp(grid, top, bot, cols);
      RowsValid();
    }

    method LineFeed()
      requires Valid() && !panicked
      modifies `buf, `grid, `hist, `histTotal, `past, `cy, `panicked
      ensures Valid() && Abs() == Terminal.LineFeed(old(Abs()))
      ensures forall a | a in buf :: a in old(buf) || fresh(a)
      ensures forall a | a in hist :: a in old(hist) || fresh(a)
    {
      hide AllParameters, Shape, GridValid, HistValid, Disjoint, ScrollUp, Push;
      if cy == bot {
        if top >= rows {
          panicked := true;
        } else {
          ScrollOut();
        }
      } else if cy < rows - 1 {
        cy := cy + 1;
      }
    }

    method ReverseIndex()
      requires Valid() && !panicked
      modifies `buf, `grid, `cy, `panicked
      ensures Valid() && Abs() == Terminal.ReverseIndex(old(Abs()))
      ensures forall a | a in buf :: a in old(buf) || fresh(a)
    {
      hide AllParameters, Shape, GridValid, HistValid, Disjoint, ScrollDown, Spells, Distinct;
      if cy == top {
        if bot >= rows {
          panicked := true;
        } else {
          RowsParts();
          var shifted := ShiftDown(buf, top, bot);
          var row := NewBlankLine(cols);
          ShiftDownSpells(buf, shifted, row, grid, top, bot, cols);
          buf := shifted[top := row];
          grid := ScrollDown(grid, top, bot, cols);
          RowsValid();
        }
      } else if cy > 0 {
        cy := cy - 1;
      }
    }

    /** Writes one cell of the cursor's row, in place. */
    method PutAt(x: nat, c: Cell)
      requires Valid() && x < cols
      modifies buf[cy], `grid
      ensures Valid() && grid == old(grid)[cy := old(grid)[cy][x := c]]
      ensures forall a | a in hist :: a[..] == old(a[..])
    {
      assert buf[cy] in buf && buf[cy] !in hist;
      buf[cy][x] := c;
      grid := grid[cy := grid[cy][x := c]];
    }

    method TakePendingWrap()
      requires Valid() && !panicked
      modifies `buf, `grid, `hist, `histTotal, `past, `cx, `cy, `wrap, `panicked
      ensures Valid() && Abs() == TakeWrap(old(Abs()))
      ensures forall a | a in buf :: a in old(buf) || fresh(a)
      ensures forall a | a in hist :: a in old(hist) || fresh(a)
    {
      hide AllParameters, Shape, GridValid, HistValid, Disjoint, Terminal.LineFeed;
      if wrap {
        cx := 0;
        LineFeed();
        if !panicked {
          wrap := false;
        }
      }
    }

    method WrapUnlessFits(w: nat)
      requires Valid() && !panicked
      modifies `buf, `grid, `hist, `histTotal, `past, `cx, `cy, `panicked
      ensures Valid() && Abs() == FitWidth(old(Abs()), w)
      ensures forall a | a in buf :: a in old(buf) || fresh(a)
      ensures forall a | a in hist :: a in old(hist) || fresh(a)
    {
      hide AllParameters, Shape, GridValid, HistValid, Disjoint, Terminal.LineFeed;
      if cx + w > cols {
        cx := 0;
        LineFeed();
      }
    }

    /** The cell of a rune, and its continuation cell when it is wide. */
    method PutCells(r: Rune, w: nat)
      requires Valid() && 1 <= w <= 2
      modifies buf[cy], `grid
      ensures Valid() && grid == old(grid)[cy := PutRune(old(grid)[cy], cx, w, r, pen)]
    {
      hide AllParameters, GridValid, HistValid, Disjoint;
      PutAt(cx, Cell(r, false, pen));
      if w == 2 && cx + 1 < cols {
        PutAt(cx + 1, Cell(0, true, pen));
      }
    }

    method PutAndAdvance(r: Rune, w: nat)
      requires Valid() && 1 <= w <= 2
      modifies buf[cy], `grid, `cx, `wrap, `wideDrawn
      ensures Valid() && Abs() == PutCell(old(Abs()), r, w)
    {
      hide AllParameters, Shape, GridValid, HistValid, Disjoint, PutRune;
      PutCells(r, w);
      wideDrawn := wideDrawn || w == 2;
      Advance(w);
    }

    /** Moves right; at the last column the wrap stays pending. */
    method Advance(w: nat)
      requires 0 <= cx < cols
      modifies `cx, `wrap
      ensures if old(cx) + w >= cols then cx == cols - 1 && wrap
              else cx == old(cx) + w && wrap == old(wrap)
    {
      cx := cx + w;
      if cx >= cols {
        cx := cols - 1;
        wrap := true;
      }
    }

    /** Draws one rune at the cursor. */
    method Draw(r: Rune)
      requires Valid() && !panicked
      modifies this, buf
      ensures Valid() && Abs() == Terminal.Draw(old(Abs()), r)
      ensures forall a | a in buf :: a in old(buf) || fresh(a)
      ensures forall a | a in hist :: a in old(hist) || fresh(a)
      ensures forall a | a in old(hist) :: a[..] == old(a[..])
    {
      hide AllParameters, Shape, GridValid, HistValid, TakeWrap, FitWidth, PutCell;
      var w := width(r);
      if w == 0 {
        return;
      }
      TakePendingWrap();
      if panicked {
        return;
      }
      WrapUnlessFits(w);
      if panicked {
        return;
      }
      assert buf[cy] in buf;
      PutAndAdvance(r, w);
    }

    /** Empties cells lo..hi of the cursor's row, in place. */
    method EraseCells(lo: nat, hi: nat)
      requires Valid() && lo <= hi <= cols
      modifies buf[cy], `grid
      ensures Valid() && grid == old(grid)[cy := EraseSpan(old(grid)[cy], lo, hi)]
    {
      hide AllParameters, GridValid, HistValid, Disjoint;
      var x := lo;
      assert EraseSpan(grid[cy], lo, lo) == grid[cy];
      while x < hi
        invariant lo <= x <= hi && Valid()
        invariant grid == old(grid)[cy := EraseSpan(old(grid)[cy], lo, x)]
      {
        ghost var row := old(grid)[cy];
        assert EraseSpan(row, lo, x)[x := EMPTY] == EraseSpan(row, lo, x + 1);
        PutAt(x, EMPTY);
        x := x + 1;
      }
    }

    method EraseLine(mode: nat)
      requires Valid()
      modifies buf[cy], `grid
      ensures Valid() && Abs() == Terminal.EraseLine(old(Abs()), mode)
    {
      hide AllParameters, Shape, GridValid, HistValid, Disjoint, EraseSpan;
      match mode {
        case 0 => EraseCells(cx, cols);
        case 1 => EraseCells(0, cx + 1);
        case 2 => EraseCells(0, cols);
        case _ =>
      }
    }

    /** Replaces rows lo..hi by new blank ones. */
    method ReplaceRows(lo: nat, hi: nat)
      requires Valid() && lo <= hi <= rows
      modifies `buf, `grid
      ensures Valid() && grid == BlankRows(old(grid), lo, hi, cols)
      ensures forall a | a in buf :: a in old(buf) || fresh(a)
      ensures forall y | 0 <= y < rows && !(lo <= y < hi) :: buf[y] == old(buf)[y]
    {
      var y := lo;
      while y < hi
        invariant lo <= y <= hi && Valid()
        invariant grid == BlankRows(old(grid), lo, y, cols)
        invariant forall a | a in buf :: a in old(buf) || fresh(a)
        invariant forall k | 0 <= k < rows && !(lo <= k < y) :: buf[k] == old(buf)[k]
      {
        ReplaceRow(y);
        y := y + 1;
      }
    }

    method ReplaceRow(y: nat)
      requires Valid() && y < rows
      modifies `buf, `grid
      ensures Valid() && grid == old(grid)[y := BlankLine(cols)]
      ensures fresh(buf[y]) && buf == old(buf)[y := buf[y]]
    {
      var row := NewBlankLine(cols);
      buf := buf[y := row];
      grid := grid[y := BlankLine(cols)];
    }

    method EraseDisplay(mode: nat)
      requires Valid()
      modifies `buf, `grid, `hist, `past, buf[cy]
      ensures Valid() && Abs() == Terminal.EraseDisplay(old(Abs()), mode)
      ensures forall a | a in buf :: a in old(buf) || fresh(a)
      ensures forall a | a in hist :: a in old(hist)
    {
      hide AllParameters, Shape, GridValid, HistValid, Disjoint, BlankRows, Terminal.EraseLine;
      match mode {
        case 0 =>
          EraseLine(0);
          ReplaceRows(cy + 1, rows);
        case 1 =>
          ReplaceRows(0, cy);
          EraseLine(1);
        case 2 =>
          ReplaceAll();
        case 3 =>
          ReplaceAll();
          DropHistory();
        case _ =>
      }
    }

    method DropHistory()
      requires Valid()
      modifies `hist, `past
      ensures Valid() && hist == [] && past == old(past).(lines := [], clears := old(past).clears + 1)
    {
      hist := [];
      past := past.(lines := [], clears := past.clears + 1);
    }

    method ReplaceAll()
      requires Valid()
      modifies `buf, `grid
      ensures Valid() && grid == BlankGrid(cols, rows)
      ensures forall a | a in buf :: fresh(a)
    {
      var b := NewBlank(cols, rows);
      buf := b;
      grid := BlankGrid(cols, rows);
    }

    /** Applies the rendition parameter at `i`; the next one starts at `j`. */
    method SgrStep(ps: seq<nat>, i: nat) returns (j: nat)
      requires i < |ps|
      modifies `pen
      ensures (pen, j) == SgrOne(old(pen), ps, i)
    {
      var n := ps[i];
      j := i + 1;
      if n == 0 {
        pen := PLAIN;
      } else if n == 1 {
        pen := pen.(bold := true);
      } else if n == 3 {
        pen := pen.(italic := true);
      } else if n == 4 {
        pen := pen.(under := true);
      } else if n == 7 {
        pen := pen.(reverse := true);
      } else if n == 22 {
        pen := pen.(bold := false);
      } else if n == 23 {
        pen := pen.(italic := false);
      } else if n == 24 {
        pen := pen.(under := false);
      } else if n == 27 {
        pen := pen.(reverse := false);
      } else if 30 <= n <= 37 {
        pen := pen.(fg := PalColor(n - 30));
      } else if n == 38 {
        var (last, c) := ColorExt(ps, i);
        pen, j := pen.(fg := c), last + 1;
      } else if n == 39 {
        pen := pen.(fg := DEFAULT_COLOR);
      } else if 40 <= n <= 47 {
        pen := pen.(bg := PalColor(n - 40));
      } else if n == 48 {
        var (last, c) := ColorExt(ps, i);
        pen, j := pen.(bg := c), last + 1;
      } else if n == 49 {
        pen := pen.(bg := DEFAULT_COLOR);
      } else if 90 <= n <= 97 {
        pen := pen.(fg := PalColor(n - 90 + 8));
      } else if 100 <= n <= 107 {
        pen := pen.(bg := PalColor(n - 100 + 8));
      }
    }

    method Sgr(ps: seq<nat>)
      modifies `pen
      ensures pen == Terminal.Sgr(old(pen), ps)
    {
      if ps == [] {
        pen := PLAIN;
        return;
      }
      var i := 0;
      while i < |ps|
        invariant i <= |ps| && SgrFrom(pen, ps, i) == SgrFrom(old(pen), ps, 0)
      {
        i := SgrStep(ps, i);
      }
    }

    method TrackSync(ps: seq<nat>, on: bool)
      modifies `syncActive
      ensures syncActive == if 2026 in ps then on else old(syncActive)
    {
      for i := 0 to |ps|
        invariant syncActive == if 2026 in ps[..i] then on else old(syncActive)
      {
        if ps[i] == 2026 {
          syncActive := on;
        }
      }
      assert ps[..|ps|] == ps;
    }

    /** Cursor movement; the caller's clamp brings the cursor back on screen. */
    method CsiMove(ps: seq<nat>, final: Byte)
      requires Valid() && final in [0x41, 0x42, 0x43, 0x44, 0x47, 0x64, 0x48, 0x66]
      modifies `cx, `cy
      ensures Valid() && Abs() == CursorEffect(old(Abs()), ps, final)
    {
      hide AllParameters, Shape, GridValid, HistValid, Disjoint, Clamp, Arg, Terminal.Sgr,
        Terminal.SetMargins;
      match final {
        case 0x41 => cy := cy - Arg(ps, 0, 1);
        case 0x42 => cy := cy + Arg(ps, 0, 1);
        case 0x43 => cx := cx + Arg(ps, 0, 1);
        case 0x44 => cx := cx - Arg(ps, 0, 1);
        case 0x47 => cx := Arg(ps, 0, 1) - 1;
        case 0x64 => cy := Arg(ps, 0, 1) - 1;
        case _ => cy, cx := Arg(ps, 0, 1) - 1, Arg(ps, 1, 1) - 1;
      }
      ClampCursor();
    }

    method SetMargins(ps: seq<nat>)
      requires Valid()
      modifies `cx, `cy, `top, `bot
      ensures Valid() && Abs() == Terminal.SetMargins(old(Abs()), ps)
    {
      hide AllParameters, Shape, GridValid, HistValid, Disjoint, Clamp;
      if |ps| >= 2 && ps[0] > 0 && ps[1] > 0 {
        top, bot := ps[0] - 1, ps[1] - 1;
      } else {
        top, bot := 0, rows - 1;
      }
      cx, cy := 0, top;
      ClampCursor();
    }

    /** Final bytes that leave the cells alone. */
    method CsiCursor(ps: seq<nat>, final: Byte)
      requires Valid()
      modifies `cx, `cy, `top, `bot, `pen, `syncActive
      ensures Valid() && Abs() == CursorEffect(old(Abs()), ps, final)
    {
      hide AllParameters, Shape, GridValid, HistValid, Disjoint, Terminal.Sgr, Terminal.SetMargins, MoveTo, Arg;
      match final {
        case 0x72 => if !csiPv { SetMargins(ps); }
        case 0x6d => Sgr(ps);
        case 0x68 => if csiPv { TrackSync(ps, true); }
        case 0x6c => if csiPv { TrackSync(ps, false); }
        case _ =>
          if final in [0x41, 0x42, 0x43, 0x44, 0x47, 0x64, 0x48, 0x66] {
            CsiMove(ps, final);
          }
      }
    }

    /** Dispatches a control sequence on its final byte. */
    method Csi(final: Byte)
      requires Valid()
      modifies this, buf[cy]
      ensures Valid() && Abs() == CsiEffect(old(Abs()), Params(old(parm)), final).(wrap := false)
      ensures forall a | a in buf :: a in old(buf) || fresh(a)
      ensures forall a | a in hist :: a in old(hist)
    {
      hide AllParameters, Shape, GridValid, HistValid, Disjoint, Params, CursorEffect,
        Terminal.EraseDisplay, Terminal.EraseLine;
      var ps := ReadParams(parm);
      var mode := if ps == [] then 0 else ps[0];
      if final == 0x4a {
        EraseDisplay(mode);
      } else if final == 0x4b {
        EraseLine(mode);
      } else {
        CsiCursor(ps, final);
      }
      wrap := false;
    }

    /** A byte of the ground state that is not text. */
    method FeedGround(c: Byte)
      requires Valid() && !panicked
      modifies this
      ensures Valid() && Abs() == GroundControl(old(Abs()), c)
      ensures forall a | a in buf :: a in old(buf) || fresh(a)
      ensures forall a | a in hist :: a in old(hist) || fresh(a)
    {
      hide AllParameters, Shape, GridValid, HistValid, Disjoint, Terminal.LineFeed;
      if c == ESC {
        st := Escape;
      } else if c == 0x0d {
        cx, wrap := 0, false;
      } else if c == 0x0a {
        LineFeed();
        if !panicked {
          wrap := false;
        }
      } else if c == 0x08 {
        if cx > 0 {
          cx := cx - 1;
        }
        wrap := false;
      } else if c == 0x09 {
        cx := (cx / 8 + 1) * 8;
        if cx >= cols {
          cx := cols - 1;
        }
      }
    }

    method FeedEscape(c: Byte)
      requires Valid() && !panicked
      modifies this
      ensures Valid() && Abs() == EscapeByte(old(Abs()), c)
      ensures forall a | a in buf :: a in old(buf) || fresh(a)
      ensures forall a | a in hist :: a in old(hist) || fresh(a)
    {
      hide Shape, GridValid, HistValid, Disjoint, Terminal.LineFeed, Terminal.ReverseIndex, Clamp;
      if c == 0x5b {
        st, parm, csiPv := ParserState.Csi, [], false;
      } else if c == 0x5d {
        st := Osc;
      } else {
        st := Ground;
        AfterEscape(c);
      }
    }

    /** The two-byte escapes. */
    method AfterEscape(c: Byte)
      requires Valid() && !panicked && st == Ground && c != 0x5b && c != 0x5d
      modifies this
      ensures Valid() && Abs() == EscapeByte(old(Abs()), c)
      ensures forall a | a in buf :: a in old(buf) || fresh(a)
      ensures forall a | a in hist :: a in old(hist) || fresh(a)
    {
      hide Shape, AllParameters, GridValid, HistValid, Disjoint, Terminal.LineFeed, Terminal.ReverseIndex, Clamp;
      match c {
        case 0x37 => scx, scy := cx, cy;
        case 0x38 =>
          cx, cy := scx, scy;
          ClampCursor();
        case 0x44 => LineFeed();
        case 0x4d => ReverseIndex();
        case 0x45 =>
          cx := 0;
          LineFeed();
        case _ =>
      }
    }

    method FeedCsi(c: Byte)
      requires Valid() && !panicked
      modifies this, buf
      ensures Valid() && Abs() == CsiByte(old(Abs()), c)
      ensures forall a | a in buf :: a in old(buf) || fresh(a)
      ensures forall a | a in hist :: a in old(hist) || fresh(a)
    {
      hide Shape, GridValid, HistValid, Disjoint, Params, CsiEffect;
      if c == 0x3f || c == 0x3e || c == 0x3d {
        if c == 0x3f {
          csiPv := true;
        }
        return;
      }
      if IsParameterByte(c) {
        parm := parm + [c];
        return;
      }
      Csi(c);
      st := Ground;
    }

    /** One byte outside text. */
    method FeedControl(c: Byte)
      requires Valid() && !panicked
      modifies this, buf
      ensures Valid() && Abs() == ControlByte(old(Abs()), c)
      ensures forall a | a in buf :: a in old(buf) || fresh(a)
      ensures forall a | a in hist :: a in old(hist) || fresh(a)
    {
      hide Shape, AllParameters, GridValid, HistValid, Disjoint, GroundControl, EscapeByte, CsiByte;
      match st {
        case Ground => FeedGround(c);
        case Escape => FeedEscape(c);
        case Csi => FeedCsi(c);
        case Osc =>
          if c == 0x07 {
            st := Ground;
          } else if c == ESC {
            st := OscEscape;
          }
        case OscEscape => st := Ground;
      }
    }

    /** Takes the rune that starts at `i` and draws it; when the bytes run out in
        the middle of it they are kept for the next call. */
    method PutByte(p: seq<Byte>, i: nat) returns (incomplete: bool, last: nat)
      requires Valid() && !panicked && i < |p|
      modifies this, buf
      ensures Valid() && i <= last < |p|
      ensures var n := SequenceLength(p[i]);
              if n == 0 then !incomplete && last == i && Abs() == old(Abs())
              else if i + n > |p| then incomplete && Abs() == Carrying(old(Abs()), p[i..])
              else !incomplete && last == i + n - 1 && Abs() == DrawSequence(old(Abs()), p[i..i + n])
      ensures forall a | a in buf :: a in old(buf) || fresh(a)
      ensures forall a | a in hist :: a in old(hist) || fresh(a)
    {
      hide Shape, AllParameters, GridValid, HistValid, Disjoint, Terminal.Draw;
      incomplete, last := false, i;
      var n := SequenceLength(p[i]);
      if n == 0 {
        return;
      }
      if n == 1 {
        Draw(p[i]);
        return;
      }
      if i + n > |p| {
        pend := p[i..];
        incomplete := true;
        return;
      }
      last := i + n - 1;
      Draw(DecodeFirst(p[i..i + n]));
    }

    /** The loop of Feed. */
    method Consume(q: seq<Byte>)
      requires Valid() && !panicked && pend == []
      modifies this, buf
      ensures Valid() && Abs() == Run(old(Abs()), q)
      ensures forall a | a in buf :: a in old(buf) || fresh(a)
      ensures forall a | a in hist :: a in old(hist) || fresh(a)
    {
      hide Shape, AllParameters, GridValid, HistValid, Disjoint, ControlByte, DrawSequence;
      var i := 0;
      while i < |q| && !panicked
        invariant i <= |q| && Valid() && pend == []
        invariant Run(Abs(), q[i..]) == Run(old(Abs()), q)
        invariant forall a | a in buf :: a in old(buf) || fresh(a)
        invariant forall a | a in hist :: a in old(hist) || fresh(a)
      {
        assert q[i..][1..] == q[i + 1..];
        assert forall y | 0 <= y < |buf| :: buf[y] in buf;
        if st == Ground && q[i] >= 0x20 {
          ghost var n := SequenceLength(q[i]);
          assert n <= |q| - i ==> q[i..][..n] == q[i..i + n] && q[i..][n..] == q[i + n..];
          var incomplete, last := PutByte(q, i);
          if incomplete {
            return;
          }
          i := last + 1;
        } else {
          FeedControl(q[i]);
          i := i + 1;
        }
      }
    }

    /** Feeds bytes to the machine; whatever the machine does, it never writes to a
        row that was already history. */
    method Feed(p: seq<Byte>)
      requires Valid()
      modifies this, buf
      ensures Valid() && Abs() == Terminal.Feed(old(Abs()), p)
      ensures forall a | a in buf :: a in old(buf) || fresh(a)
      ensures forall a | a in hist :: a in old(hist) || fresh(a)
      ensures forall a | a in old(hist) :: a[..] == old(a[..])
    {
      hide Shape, AllParameters, GridValid, HistValid, Run;
      if panicked {
        return;
      }
      var q := p;
      if pend != [] {
        q := pend + p;
        pend := [];
      } else {
        assert pend + p == p;
      }
      Consume(q);
    }
  }
}
