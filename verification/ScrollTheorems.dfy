/** Main results about scrolling and rendering. */
module ScrollTheorems {
  import opened Bytes
  import opened Utf8
  import opened Terminal
  import opened TerminalInvariants
  import opened TerminalTheorems
  import opened ControlSequences
  import opened Frame
  import opened FrameRoundTrip
  import opened Scroll
  import Wire

  // ---- Positions ----

  /** What a render leaves behind: in range, and at the bottom exactly when following. */
  ghost predicate Settled(v: View) {
    && v.lastOy <= v.lastMaxOy
    && (v.follow ==> v.lastOy == v.lastMaxOy)
    && (!v.follow ==> 0 <= v.anchor == v.lastOy < v.lastMaxOy)
  }

  /** Positions that scrolling and rendering can bring about. */
  predicate Sane(v: View) {
    v.follow || 0 <= v.anchor
  }

  lemma SaneIsKept(v: View, dy: int, total: nat, vrows: nat)
    requires Sane(v)
    ensures Sane(ScrollBy(v, dy)) && Sane(Place(v, total, vrows)) && Sane(v.(follow := true)) && Sane(INITIAL)
  {
  }

  /** From any such position a render settles, and shows a full viewport if there are enough lines. */
  lemma RenderSettles(v: View, s: State, vrows: nat)
    requires Sane(v)
    ensures var p := Placed(v, s, vrows);
      && Settled(p) && p.lastMaxOy == MaxOy(|Canvas(s)|, vrows)
      && |Viewport(v, s, vrows)| == Min(vrows, |Canvas(s)|)
      && Viewport(v, s, vrows) == Canvas(s)[p.lastOy..p.lastOy + Min(vrows, |Canvas(s)|)]
  {
  }

  /** `y` brought into 0..max. */
  function Within(y: int, max: nat): nat {
    if y < 0 then 0 else if y > max then max else y
  }

  /** A scroll between two renders moves the viewport by exactly its distance, as far as there
      are lines, and follows if and only if that is the bottom. */
  lemma ScrollMoves(v: View, s: State, vrows: nat, dy: int)
    requires Sane(v)
    ensures var p := Placed(v, s, vrows); var q := Placed(ScrollBy(p, dy), s, vrows);
      && q.lastMaxOy == p.lastMaxOy == MaxOy(|Canvas(s)|, vrows)
      && q.lastOy == Within(p.lastOy + dy, p.lastMaxOy)
      && (q.follow <==> q.lastOy == q.lastMaxOy)
  {
  }

  /** Two scrolls that stay in the canvas move by the sum, with or without a render between
      them; so a scroll back undoes a scroll. */
  lemma ScrollsAdd(v: View, s: State, vrows: nat, a: int, b: int)
    requires Sane(v)
    requires var p := Placed(v, s, vrows); 0 <= p.lastOy + a <= p.lastMaxOy
    ensures var p := Placed(v, s, vrows); var q := Placed(ScrollBy(p, a), s, vrows);
      && Placed(ScrollBy(q, b), s, vrows).lastOy == Within(p.lastOy + a + b, p.lastMaxOy)
      && Placed(ScrollBy(ScrollBy(p, a), b), s, vrows).lastOy == Within(p.lastOy + a + b, p.lastMaxOy)
      && Viewport(ScrollBy(q, -a), s, vrows) == Viewport(v, s, vrows)
  {
    var p := Placed(v, s, vrows);
    var q := Placed(ScrollBy(p, a), s, vrows);
    ScrollMoves(v, s, vrows, a);
    SaneIsKept(v, a, |Canvas(s)|, vrows);
    SaneIsKept(p, a, |Canvas(s)|, vrows);
    SaneIsKept(ScrollBy(p, a), a, |Canvas(s)|, vrows);
    PlacedAgain(ScrollBy(p, a), s, vrows);
    ScrollMoves(ScrollBy(p, a), s, vrows, b);
    ScrollMoves(ScrollBy(p, a), s, vrows, -a);
  }

  /** Rendering again without anything in between changes nothing. */
  lemma PlacedAgain(v: View, s: State, vrows: nat)
    requires Sane(v)
    ensures Placed(Placed(v, s, vrows), s, vrows) == Placed(v, s, vrows)
  {
  }

  /** Following with a viewport of the model's size shows the grid, whatever the history. */
  lemma LiveViewIsGrid(v: View, s: State)
    requires Shape(s) && v.follow
    ensures Viewport(v, s, s.cfg.rows) == s.grid && CursorRow(v, s, s.cfg.rows) == s.cy + 1
  {
  }

  /** One scroll from the live bottom reaches every line. */
  lemma EveryLineReachable(v: View, s: State, vrows: nat, oy: nat)
    requires v.follow && oy <= MaxOy(|Canvas(s)|, vrows)
    ensures exists dy: int :: Placed(ScrollBy(Placed(v, s, vrows), dy), s, vrows).lastOy == oy
  {
    var p := Placed(v, s, vrows);
    assert Placed(ScrollBy(p, oy - p.lastMaxOy), s, vrows).lastOy == oy;
  }

  // ---- The wire keys ----

  /** Home (-1000000, clamped to 16 bits by the encoder) shows the oldest retained line;
      End (1000000) and the follow request (32767) show the live bottom, whatever was fed
      since the last render. */
  lemma HomeAndEndReach(v: View, s: State, t: State, vrows: nat)
    requires Sane(v) && Reached(s) && s.cfg.rows <= 27767
    ensures Placed(ScrollBy(Placed(v, s, vrows), Wire.Clamp16(-1000000)), t, vrows).lastOy == 0
    ensures var w := Placed(ScrollBy(Placed(v, s, vrows), Wire.Clamp16(1000000)), t, vrows);
      w.follow && w.lastOy == MaxOy(|Canvas(t)|, vrows)
    ensures ScrollBy(Placed(v, s, vrows), 32767) == ScrollBy(Placed(v, s, vrows), Wire.Clamp16(1000000))
  {
    RenderSettles(v, s, vrows);
    assert |Canvas(s)| <= 32767;
  }

  // ---- No drift while reading back ----

  /** Index in the log of all scrolled-out lines of the line at the top of the viewport. */
  function TopLine(v: View, s: State): int {
    |s.past.log| - |s.past.lines| + v.lastOy
  }

  /** Lines that the length cap dropped between `s` and `t`. */
  function Trimmed(s: State, t: State): int {
    |s.past.lines| + (|t.past.log| - |s.past.log|) - |t.past.lines|
  }

  /** While the reader is not following, feeding any bytes leaves the reader where they are
      in the canvas; so the lines in view are those of the log of all scrolled-out lines,
      moved on by exactly the number of lines the length cap dropped meanwhile. */
  lemma DriftIsTrimming(v: View, s: State, p: seq<Byte>, vrows: nat)
    requires Sane(v) && Reached(s)
    requires !Placed(v, s, vrows).follow && Feed(s, p).past.clears == s.past.clears
    requires Placed(v, s, vrows).anchor + vrows <= |s.past.lines|
    ensures var t := Feed(s, p); var a := Placed(v, s, vrows);
      var top, drift := TopLine(a, s), Trimmed(s, t);
      && !Placed(a, t, vrows).follow && 0 <= top && 0 <= drift && top + drift + vrows <= |t.past.log|
      && top + vrows <= |s.past.log| && s.past.log <= t.past.log
      && Viewport(v, s, vrows) == s.past.log[top..top + vrows]
      && Viewport(a, t, vrows) == t.past.log[top + drift..top + drift + vrows]
  {
    FeedInv(s, p);
    hide RowOk, Feed, GridInv, PendOk, ParmOk;
    var t := Feed(s, p);
    var a := Placed(v, s, vrows);
    RenderSettles(v, s, vrows);
    SaneIsKept(v, 0, |Canvas(s)|, vrows);
    RenderSettles(a, t, vrows);
    HistoryInView(s, a.lastOy, vrows);
    HistoryInView(t, a.lastOy, vrows);
    hide HistInv;
  }

  /** A viewport inside the retained history is a stretch of the log. */
  lemma HistoryInView(s: State, oy: nat, vrows: nat)
    requires HistInv(s) && oy + vrows <= |s.past.lines|
    ensures var first := |s.past.log| - |s.past.lines| + oy;
      Canvas(s)[oy..oy + vrows] == s.past.log[first..first + vrows]
  {
    hide RowOk;
    assert Canvas(s)[oy..oy + vrows] == s.past.lines[oy..oy + vrows];
  }

  lemma SameStretch<T>(a: seq<T>, b: seq<T>, i: nat, n: nat)
    requires a <= b && i + n <= |a|
    ensures a[i..i + n] == b[i..i + n]
  {
  }

  /** Without trimming the viewport does not change at all. */
  lemma NoDrift(v: View, s: State, p: seq<Byte>, vrows: nat)
    requires Sane(v) && Reached(s)
    requires !Placed(v, s, vrows).follow && Feed(s, p).past.clears == s.past.clears
    requires Placed(v, s, vrows).anchor + vrows <= |s.past.lines|
    requires Trimmed(s, Feed(s, p)) == 0
    ensures var a := Placed(v, s, vrows);
      && Viewport(a, Feed(s, p), vrows) == Viewport(v, s, vrows)
      && !Placed(a, Feed(s, p), vrows).follow
  {
    hide Inv, Feed, Viewport, Placed, Sane, TopLine;
    InvShape(s);
    DriftIsTrimming(v, s, p, vrows);
    hide Reached;
    var t := Feed(s, p);
    SameStretch(s.past.log, t.past.log, TopLine(Placed(v, s, vrows), s), vrows);
  }

  // ---- A frame reproduces the viewport ----

  /** How a cell looks: an empty cell is a plain space. */
  function Appears(c: Cell): Cell {
    if c.cont || c.r != 0 then c else Cell(0x20, false, PLAIN)
  }

  function RowAt(rows: seq<Row>, y: nat): Row {
    if y < |rows| then rows[y] else []
  }

  /** The grid looks like the rows, padded with blanks to the right and below. */
  ghost predicate LooksLike(s: State, rows: seq<Row>)
    requires Shape(s)
  {
    forall y, x | 0 <= y < s.cfg.rows && 0 <= x < s.cfg.cols ::
      Appears(s.grid[y][x]) == Appears(CellAt(RowAt(rows, y), x))
  }

  /** Every colour in view survives being printed. */
  ghost predicate ColorsKept(rows: seq<Row>, vcols: nat) {
    forall y, x | 0 <= y < |rows| && 0 <= x < vcols :: StyleKept(CellAt(rows[y], x))
  }

  predicate StyleKept(c: Cell) {
    c.cont || c.r != 0 ==> ColorKept(c.st.fg) && ColorKept(c.st.bg)
  }

  lemma ShownIsExact(width: Rune -> Width, wide: bool, c: Cell)
    requires CellOk(width, wide, c)
    ensures Appears(Shown(c)) == Appears(c) <==> StyleKept(c)
  {
    assert SeenStyle(PLAIN) == PLAIN;
    SeenIsExact(c.st.fg);
    SeenIsExact(c.st.bg);
    hide Seen, ColorKept;
  }

  /** The receiver of a render of `s`. */
  ghost predicate ReceiverFor(s: State, recv: State, vrows: nat, vcols: nat) {
    && Receiver(recv) && recv.cfg == Setting(s.cfg.width, vcols, vrows) && s.cfg.width(0x20) == 1
  }

  /** Rendering and feeding the bytes to any receiver of the viewport's size: the receiver
      looks like the viewport exactly if every colour in view can be printed, keeps its
      history, is out of synchronized output, and has its cursor on the model's cursor
      when that is in view. Needs reproducible rows; that no others will do is the subject of
      FrameExactness. */
  lemma RenderRoundTrip(v: View, s: State, recv: State, vrows: nat, vcols: nat)
    requires Sane(v) && Reached(s) && ReceiverFor(s, recv, vrows, vcols)
    requires forall i | 0 <= i < |Viewport(v, s, vrows)| ::
      ReproducibleRow(s.cfg.width, Viewport(v, s, vrows)[i], vcols)
    ensures var t := Feed(recv, Render(v, s, vrows, vcols));
      var y := |s.past.lines| + s.cy - Placed(v, s, vrows).lastOy;
      && Receiver(t) && t.past == recv.past && !t.sync
      && (LooksLike(t, Viewport(v, s, vrows)) <==> ColorsKept(Viewport(v, s, vrows), vcols))
      && (0 <= y < vrows ==> t.cy == y && t.cx == Min(s.cx, vcols - 1))
  {
    hide RowOk, ReproducibleRow, FrameBytes, Ready, Feed;
    NotPanicked(recv);
    var rows := Viewport(v, s, vrows);
    RenderSettles(v, s, vrows);
    CanvasOk(s);
    var t := Feed(recv, Render(v, s, vrows, vcols));
    assert vrows >= 1 && Shape(recv) by { NotPanicked(recv); }
    FrameReproduces(recv, s.wideDrawn, rows, CursorRow(v, s, vrows), s.cx + 1);
    FaithfulIffKept(recv, t, s.wideDrawn, rows, CursorRow(v, s, vrows), s.cx + 1);
  }

  lemma CanvasOk(s: State)
    requires Inv(s)
    ensures |Canvas(s)| >= 1
    ensures forall i | 0 <= i < |Canvas(s)| :: RowOk(s.cfg.width, s.wideDrawn, Canvas(s)[i])
  {
    hide RowOk;
  }

  lemma FaithfulIffKept(s: State, t: State, wide: bool, rows: seq<Row>, row: int, col: nat)
    requires |rows| <= s.cfg.rows && ShowsFrame(s, t, rows, row, col)
    requires forall i | 0 <= i < |rows| :: RowOk(s.cfg.width, wide, rows[i])
    ensures Shape(t) && (LooksLike(t, rows) <==> ColorsKept(rows, s.cfg.cols))
  {
    NotPanicked(t);
    forall y, x | 0 <= y < s.cfg.rows && 0 <= x < s.cfg.cols
      ensures Appears(t.grid[y][x]) == Appears(CellAt(RowAt(rows, y), x))
         <==> (y < |rows| ==> StyleKept(CellAt(rows[y], x)))
    {
      CellFaithful(s, t, wide, rows, row, col, y, x);
    }
    hide ShowsFrame, RowOk, StyleKept, Appears, Shape;
    if LooksLike(t, rows) {
      forall y, x | 0 <= y < |rows| && 0 <= x < s.cfg.cols
        ensures StyleKept(CellAt(rows[y], x))
      {
        assert Appears(t.grid[y][x]) == Appears(CellAt(RowAt(rows, y), x));
      }
    }
  }

  lemma CellFaithful(s: State, t: State, wide: bool, rows: seq<Row>, row: int, col: nat, y: nat, x: nat)
    requires |rows| <= s.cfg.rows && ShowsFrame(s, t, rows, row, col)
    requires forall i | 0 <= i < |rows| :: RowOk(s.cfg.width, wide, rows[i])
    requires y < s.cfg.rows && x < s.cfg.cols
    ensures Shape(t) && t.cfg == s.cfg
    ensures Appears(t.grid[y][x]) == Appears(CellAt(RowAt(rows, y), x))
       <==> (y < |rows| ==> StyleKept(CellAt(rows[y], x)))
  {
    NotPanicked(t);
    hide Ready, StyleKept, Appears, Shown;
    if y < |rows| {
      assert t.grid[y] == Painted(rows[y], s.cfg.cols);
      assert CellOk(s.cfg.width, wide, CellAt(rows[y], x));
      ShownIsExact(s.cfg.width, wide, CellAt(rows[y], x));
    } else {
      assert t.grid[y] == BlankLine(s.cfg.cols);
    }
  }

  /** If no wide rune was ever drawn, every viewport can be printed. */
  lemma NarrowIsPrintable(v: View, s: State, vrows: nat, vcols: nat)
    requires Sane(v) && Reached(s) && !s.wideDrawn
    ensures forall i | 0 <= i < |Viewport(v, s, vrows)| :: WellFormedRow(s.cfg.width, Viewport(v, s, vrows)[i], vcols)
  {
    RenderSettles(v, s, vrows);
    CanvasOk(s);
    hide Inv, Viewport;
    forall i | 0 <= i < |Viewport(v, s, vrows)|
      ensures WellFormedRow(s.cfg.width, Viewport(v, s, vrows)[i], vcols)
    {
      NarrowRow(s.cfg.width, Viewport(v, s, vrows)[i], vcols);
    }
  }

  /** After any stream of runes of at most one column, every viewport can be printed. */
  lemma NarrowStreamIsPrintable(width: Rune -> Width, cols: nat, rows: nat, p: seq<Byte>,
                                v: View, vrows: nat, vcols: nat)
    requires cols >= 1 && rows >= 1 && NarrowWidths(width) && Sane(v)
    ensures var n := NewModel(width, cols, rows);
      Shape(n) && ParmOk(n)
      && var s := Feed(n, p);
      forall i | 0 <= i < |Viewport(v, s, vrows)| :: WellFormedRow(width, Viewport(v, s, vrows)[i], vcols)
  {
    var n := NewModel(width, cols, rows);
    NewModelInv(width, cols, rows);
    hide Inv, Feed, Viewport, WellFormedRow;
    InvShape(n);
    FeedInv(n, p);
    FeedStaysNarrow(n, p);
    assert !n.wideDrawn;
    InvShape(Feed(n, p));
    NarrowIsPrintable(v, Feed(n, p), vrows, vcols);
  }

  /** ... and a receiver then looks like the viewport if and only if its colours can be
      printed. */
  lemma NarrowStreamRoundTrip(n: State, p: seq<Byte>, v: View, recv: State, vrows: nat, vcols: nat)
    requires n.cfg.cols >= 1 && n.cfg.rows >= 1 && n == NewModel(n.cfg.width, n.cfg.cols, n.cfg.rows)
    requires NarrowWidths(n.cfg.width) && Sane(v) && Shape(n) && ParmOk(n)
    requires ReceiverFor(n, recv, vrows, vcols) && Shape(recv) && ParmOk(recv)
    ensures var s := Feed(n, p); var t := Feed(recv, Render(v, s, vrows, vcols));
      && Shape(t) && t.past == recv.past
      && (LooksLike(t, Viewport(v, s, vrows)) <==> ColorsKept(Viewport(v, s, vrows), vcols))
  {
    var s := Feed(n, p);
    NarrowStreamIsPrintable(n.cfg.width, n.cfg.cols, n.cfg.rows, p, v, vrows, vcols);
    NewModelInv(n.cfg.width, n.cfg.cols, n.cfg.rows);
    FeedInv(n, p);
    hide Inv, Feed, Viewport, WellFormedRow, ReproducibleRow, Render, LooksLike, ColorsKept, NewModel, Ready;
    forall i | 0 <= i < |Viewport(v, s, vrows)|
      ensures ReproducibleRow(s.cfg.width, Viewport(v, s, vrows)[i], vcols)
    {
      WellFormedIsReproducible(s.cfg.width, Viewport(v, s, vrows)[i], vcols);
    }
    RenderRoundTrip(v, s, recv, vrows, vcols);
    NotPanicked(Feed(recv, Render(v, s, vrows, vcols)));
  }

  lemma NarrowRow(width: Rune -> Width, row: Row, vcols: nat)
    requires RowOk(width, false, row)
    ensures WellFormedRow(width, row, vcols)
  {
    forall x | 0 <= x < vcols
      ensures WellFormedAt(width, row, vcols, x)
    {
      assert CellOk(width, false, CellAt(row, x));
    }
  }
}
