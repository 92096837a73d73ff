/** Lines of text, printed with CR LF between them: where they end up on the screen and in
    the history, and that the session log gives them back. */
module PrintedText {
  import opened Bytes
  import opened Utf8
  import opened Terminal
  import opened TerminalInvariants
  import opened TerminalTheorems
  import opened TerminalEffects
  import opened ControlSequences
  import opened Frame
  import opened FrameRoundTrip
  import opened SessionLog

  /** A line that fits the screen, of runes that take one column. */
  ghost predicate Typable(width: Rune -> Width, cols: nat, line: Text) {
    |line| <= cols && forall i | 0 <= i < |line| :: Drawable(width, line[i]) && width(line[i]) == 1
  }

  ghost predicate AllTypable(cfg: Setting, lines: seq<Text>) {
    forall i | 0 <= i < |lines| :: Typable(cfg.width, cfg.cols, lines[i])
  }

  function Typed(line: Text): seq<Byte> {
    if line == [] then [] else Typed(line[..|line| - 1]) + Encode(line[|line| - 1])
  }

  function Printed(lines: seq<Text>): seq<Byte>
    requires lines != []
  {
    var n := |lines| - 1;
    if n == 0 then Typed(lines[0]) else Printed(lines[..n]) + (NEWLINE + Typed(lines[n]))
  }

  /** The row that shows a line. */
  function TextRow(line: Text, cols: nat): (row: Row)
    ensures |row| == cols
    ensures forall x | 0 <= x < cols :: row[x] == if x < |line| then Cell(line[x], false, PLAIN) else EMPTY
  {
    seq(cols, x requires 0 <= x < cols => if x < |line| then Cell(line[x], false, PLAIN) else EMPTY)
  }

  function TextRows(lines: seq<Text>, cols: nat): (rows: seq<Row>)
    ensures |rows| == |lines| && forall i | 0 <= i < |lines| :: rows[i] == TextRow(lines[i], cols)
  {
    seq(|lines|, i requires 0 <= i < |lines| => TextRow(lines[i], cols))
  }

  // ---- One line ----

  /** `t` is `s` with the line typed into the blank row of the cursor. */
  ghost predicate AfterLine(s: State, t: State, line: Text)
    requires Shape(s)
  {
    && Ready(t)
    && t == s.(grid := s.grid[s.cy := TextRow(line, s.cfg.cols)], cx := Min(|line|, s.cfg.cols - 1),
               wrap := |line| == s.cfg.cols)
  }

  /** At the start of a blank row, in the plain style. */
  ghost predicate AtBlankRow(s: State) {
    Ready(s) && s.cx == 0 && !s.wrap && s.pen == PLAIN && s.grid[s.cy] == BlankLine(s.cfg.cols)
  }

  lemma OneMoreRune(s: State, u: State, line: Text, r: Rune)
    requires AtBlankRow(s) && AfterLine(s, u, line) && |line| < s.cfg.cols && s.cfg.width(r) == 1
    ensures AfterLine(s, PutCell(u, r, 1), line + [r])
  {
    var t := PutCell(u, r, 1);
    PutCellReady(u, r, 1);
    assert TextRow(line, s.cfg.cols)[|line| := Cell(r, false, PLAIN)] == TextRow(line + [r], s.cfg.cols);
    hide Ready, TextRow;
  }

  lemma {:induction false} TypeLine(s: State, line: Text, rest: seq<Byte>) returns (t: State)
    requires AtBlankRow(s) && Typable(s.cfg.width, s.cfg.cols, line)
    ensures AfterLine(s, t, line) && Run(s, Typed(line) + rest) == Run(t, rest)
    decreases |line|
  {
    hide Run, Encode, PutCell, TextRow;
    if line == [] {
      t := s;
      assert [] + rest == rest;
      assert TextRow([], s.cfg.cols) == BlankLine(s.cfg.cols);
      assert s.grid[s.cy := BlankLine(s.cfg.cols)] == s.grid;
    } else {
      var n := |line| - 1;
      var more := Encode(line[n]) + rest;
      assert Typed(line) + rest == Typed(line[..n]) + more;
      var u := TypeLine(s, line[..n], more);
      RunRune(u, line[n], rest);
      OneMoreRune(s, u, line[..n], line[n]);
      assert line[..n] + [line[n]] == line;
      t := PutCell(u, line[n], 1);
    }
  }

  // ---- Many lines ----

  /** A blank screen with the cursor at home, full margins, the plain style. */
  ghost predicate AtHome(s: State) {
    && Ready(s) && s.cx == 0 && s.cy == 0 && !s.wrap && s.pen == PLAIN && s.top == 0 && s.bot == s.cfg.rows - 1
    && Newest(s.past) && forall y | 0 <= y < s.cfg.rows :: s.grid[y] == BlankLine(s.cfg.cols)
  }

  /** Lines that no longer fit on the screen. */
  function Gone(cfg: Setting, lines: seq<Text>): nat {
    if |lines| <= cfg.rows then 0 else |lines| - cfg.rows
  }

  /** `t` is `s` with the lines printed: the last of them on the screen, those before in the
      history and the log, each as its own row and in order. */
  ghost predicate ShowsLines(s: State, t: State, lines: seq<Text>) {
    var gone := Gone(s.cfg, lines);
    && lines != [] && s.cfg.rows >= 1 && Ready(t) && Newest(t.past)
    && t == s.(grid := t.grid, past := t.past, cx := t.cx, cy := |lines| - gone - 1, wrap := t.wrap)
    && t.past.log == s.past.log + TextRows(lines[..gone], s.cfg.cols) && t.past.clears == s.past.clears
    && forall y | 0 <= y < s.cfg.rows ::
         t.grid[y] == if gone + y < |lines| then TextRow(lines[gone + y], s.cfg.cols) else BlankLine(s.cfg.cols)
  }

  lemma FirstLine(s: State, t: State, line: Text)
    requires AtHome(s) && AfterLine(s, t, line)
    ensures ShowsLines(s, t, [line])
  {
    assert [line][..0] == [];
    assert TextRows([], s.cfg.cols) == [];
    assert s.past.log + [] == s.past.log;
    hide TextRow;
  }

  /** CR LF behind the lines, and one more. */
  lemma NextRow(s: State, u: State, lines: seq<Text>)
    requires AtHome(s) && ShowsLines(s, u, lines)
    ensures AtBlankRow(LineFeed(Returned(u)))
  {
    ReturnSteps(u);
    LineFeedScrolls(Returned(u));
    hide LineFeed, Newest, TextRow;
  }

  /** The rows that have left the screen with one more line. */
  lemma OneMoreGone(cfg: Setting, lines: seq<Text>, line: Text)
    requires lines != [] && cfg.rows >= 1
    ensures var before, gone := Gone(cfg, lines), Gone(cfg, lines + [line]);
      TextRows((lines + [line])[..gone], cfg.cols) == TextRows(lines[..before], cfg.cols)
        + if |lines| < cfg.rows then [] else [TextRow(lines[before], cfg.cols)]
  {
    hide TextRow;
    var all := lines + [line];
    var before, gone := Gone(cfg, lines), Gone(cfg, all);
    assert all[..gone] == if |lines| < cfg.rows then lines[..before] else lines[..before] + [lines[before]];
  }

  /** The state after CR LF behind the lines: the row of the cursor is blank. */
  ghost predicate RoomForNext(s: State, v: State, lines: seq<Text>)
    requires lines != []
  {
    var gone := Gone(s.cfg, lines);
    var now := if |lines| < s.cfg.rows then gone else gone + 1;
    && Newest(v.past) && now <= |lines|
    && v == s.(grid := v.grid, past := v.past, cx := 0, cy := |lines| - now, wrap := false)
    && v.past.log == s.past.log + TextRows(lines[..gone], s.cfg.cols)
                     + (if |lines| < s.cfg.rows then [] else [TextRow(lines[gone], s.cfg.cols)])
    && v.past.clears == s.past.clears && |v.grid| == s.cfg.rows
    && forall y | 0 <= y < s.cfg.rows ::
         v.grid[y] == if now + y < |lines| then TextRow(lines[now + y], s.cfg.cols) else BlankLine(s.cfg.cols)
  }

  lemma RoomBelow(s: State, u: State, v: State, lines: seq<Text>)
    requires ShowsLines(s, u, lines) && |lines| < s.cfg.rows && Shape(u)
    requires v == u.(cx := 0, cy := u.cy + 1, wrap := false)
    ensures RoomForNext(s, v, lines)
  {
    hide Newest, TextRow, TextRows, ParmOk;
    assert u.past.log + [] == u.past.log;
  }

  lemma RoomScrolled(s: State, u: State, v: State, lines: seq<Text>)
    requires ShowsLines(s, u, lines) && |lines| >= s.cfg.rows && u.top == 0 && u.bot == s.cfg.rows - 1
    requires Shape(u) && Shape(Returned(u)) && Shape(v) && v.cfg == u.cfg && ScrolledUp(Returned(u), v)
    ensures RoomForNext(s, v, lines)
  {
    hide Newest, TextRow, TextRows, ParmOk;
    var gone := Gone(s.cfg, lines);
    assert u.grid[0] == TextRow(lines[gone], s.cfg.cols);
    assert v == s.(grid := v.grid, past := v.past, cx := 0, cy := |lines| - (gone + 1), wrap := false);
    assert v.past.log == s.past.log + TextRows(lines[..gone], s.cfg.cols) + [TextRow(lines[gone], s.cfg.cols)];
    forall y | 0 <= y < s.cfg.rows
      ensures v.grid[y] == if gone + 1 + y < |lines| then TextRow(lines[gone + 1 + y], s.cfg.cols)
                           else BlankLine(s.cfg.cols)
    {
      assert v.grid[y] == if y == u.bot then BlankLine(u.cfg.cols) else u.grid[y + 1];
      assert y + 1 < s.cfg.rows ==> u.grid[y + 1] == TextRow(lines[gone + (y + 1)], s.cfg.cols);
    }
  }

  lemma ShowsBounds(s: State, u: State, lines: seq<Text>)
    requires AtHome(s) && ShowsLines(s, u, lines)
    ensures Ready(u) && Shape(u) && Newest(u.past) && u.cfg == s.cfg && u.top == 0 && u.bot == s.cfg.rows - 1
    ensures u.cy == if |lines| < s.cfg.rows then |lines| - 1 else s.cfg.rows - 1
  {
    hide Newest, TextRow, TextRows;
  }

  lemma MakesRoom(s: State, u: State, lines: seq<Text>)
    requires AtHome(s) && ShowsLines(s, u, lines)
    ensures Shape(LineFeed(Returned(u))) && RoomForNext(s, LineFeed(Returned(u)), lines)
  {
    ShowsBounds(s, u, lines);
    hide AtHome, Newest, RoomForNext;
    assert lines != [];
    hide ShowsLines;
    ReturnSteps(u);
    LineFeedScrolls(Returned(u));
    hide LineFeed, ScrolledUp, Ready;
    if |lines| < s.cfg.rows {
      RoomBelow(s, u, LineFeed(Returned(u)), lines);
    } else {
      RoomScrolled(s, u, LineFeed(Returned(u)), lines);
    }
  }

  lemma LineIsNext(s: State, v: State, t: State, lines: seq<Text>, line: Text)
    requires lines != [] && AtHome(s) && Shape(v) && RoomForNext(s, v, lines) && AfterLine(v, t, line)
    ensures ShowsLines(s, t, lines + [line])
  {
    OneMoreGone(s.cfg, lines, line);
    HomeIsRoomy(s);
    hide Newest, TextRow, TextRows, AtHome, ParmOk;
    var gone := Gone(s.cfg, lines);
    var now := Gone(s.cfg, lines + [line]);
    var more := if |lines| < s.cfg.rows then [] else [TextRow(lines[gone], s.cfg.cols)];
    assert s.past.log + TextRows(lines[..gone], s.cfg.cols) + more
        == s.past.log + (TextRows(lines[..gone], s.cfg.cols) + more);
    assert now == if |lines| < s.cfg.rows then gone else gone + 1;
    LineInGrid(s.cfg, v.grid, t.grid, lines, line);
  }

  /** The line in the row behind those of the lines before. */
  lemma LineInGrid(cfg: Setting, before: seq<Row>, after: seq<Row>, lines: seq<Text>, line: Text)
    requires lines != [] && |before| == cfg.rows >= 1
    requires var now := Gone(cfg, lines + [line]);
      && now <= |lines| < now + cfg.rows
      && (forall y | 0 <= y < cfg.rows ::
            before[y] == if now + y < |lines| then TextRow(lines[now + y], cfg.cols) else BlankLine(cfg.cols))
      && after == before[|lines| - now := TextRow(line, cfg.cols)]
    ensures var now, all := Gone(cfg, lines + [line]), lines + [line];
      && |after| == cfg.rows
      && forall y | 0 <= y < cfg.rows ::
           after[y] == if now + y < |all| then TextRow(all[now + y], cfg.cols) else BlankLine(cfg.cols)
  {
    hide TextRow, Gone;
  }

  lemma HomeIsRoomy(s: State)
    requires AtHome(s)
    ensures s.cfg.rows >= 1 && s.cfg.cols >= 1
  {
  }

  /** Printed lines scroll through the screen into the log, row by row. */
  lemma {:induction false} PrintLines(s: State, lines: seq<Text>, rest: seq<Byte>) returns (t: State)
    requires AtHome(s) && lines != [] && AllTypable(s.cfg, lines)
    ensures ShowsLines(s, t, lines) && Run(s, Printed(lines) + rest) == Run(t, rest)
    decreases |lines|
  {
    hide Run, Typed, TextRow, LineFeed;
    var n := |lines| - 1;
    if n == 0 {
      t := TypeLine(s, lines[0], rest);
      FirstLine(s, t, lines[0]);
      assert lines == [lines[0]];
    } else {
      var more := Typed(lines[n]) + rest;
      assert Printed(lines) + rest == Printed(lines[..n]) + (NEWLINE + more);
      var u := PrintLines(s, lines[..n], NEWLINE + more);
      RunReturn(u, more);
      NextRow(s, u, lines[..n]);
      t := TypeLine(LineFeed(Returned(u)), lines[n], rest);
      MakesRoom(s, u, lines[..n]);
      LineIsNext(s, LineFeed(Returned(u)), t, lines[..n], lines[n]);
      assert lines[..n] + [lines[n]] == lines;
    }
  }

  /** A model with the invariant, as blank as a new one: nothing on the screen, in the log or
      carried over. */
  ghost predicate IsBlank(n: State) {
    Reached(n) && AtHome(n) && n.past.log == [] && n.input.pend == []
  }

  /** A new model, which has the invariant, is blank. */
  lemma NewIsBlank(n: State)
    requires Reached(n) && n.cfg.cols >= 1 && n.cfg.rows >= 1 && n == NewModel(n.cfg.width, n.cfg.cols, n.cfg.rows)
    ensures IsBlank(n)
  {
    hide Inv, PendOk;
  }

  lemma BlankIsReady(n: State)
    requires IsBlank(n)
    ensures AtHome(n) && Reached(n) && Shape(n) && ParmOk(n) && n.input.pend == [] && n.past.log == []
  {
    hide Inv, Newest, PendOk;
  }

  lemma LinesReady(s: State, t: State, lines: seq<Text>)
    requires AtHome(s) && ShowsLines(s, t, lines)
    ensures Shape(t) && ParmOk(t) && !s.panicked
  {
    hide TextRow, TextRows, Newest;
  }

  /** A blank model, as a new one is, that is fed lines. */
  lemma FeedPrintsLines(n: State, lines: seq<Text>)
    requires IsBlank(n) && lines != [] && AllTypable(n.cfg, lines)
    ensures Shape(n) && ParmOk(n) && n.past.log == [] && ShowsLines(n, Feed(n, Printed(lines)), lines)
  {
    hide Run, Printed, IsBlank, AtHome, Shape, ParmOk, AllTypable, ShowsLines;
    BlankIsReady(n);
    var t := PrintLines(n, lines, []);
    assert Printed(lines) + [] == Printed(lines);
    LinesReady(n, t, lines);
    RunNothing(t);
    FeedIsRun(n, Printed(lines));
  }

  // ---- The text comes back ----

  function Trimmed(lines: seq<Text>): (ts: seq<Text>)
    ensures |ts| == |lines| && forall i | 0 <= i < |lines| :: ts[i] == TrimRight(lines[i])
  {
    seq(|lines|, i requires 0 <= i < |lines| => TrimRight(lines[i]))
  }

  lemma {:induction false} TrimPadded(line: Text, n: nat)
    ensures TrimRight(line + Spaces(n)) == TrimRight(line)
    decreases n
  {
    if n == 0 {
      assert line + Spaces(0) == line;
    } else {
      var t := line + Spaces(n);
      assert t[..|t| - 1] == line + Spaces(n - 1);
      TrimPadded(line, n - 1);
    }
  }

  /** The text of the row that shows a line is the line without the spaces at its end. */
  lemma TextComesBack(width: Rune -> Width, cols: nat, line: Text)
    requires Typable(width, cols, line)
    ensures LineText(TextRow(line, cols)) == TrimRight(line)
  {
    var row := TextRow(line, cols);
    NarrowRunes(row);
    assert RowRunes(row) == line + Spaces(cols - |line|);
    TrimPadded(line, cols - |line|);
  }

  lemma TextsComeBack(cfg: Setting, lines: seq<Text>)
    requires AllTypable(cfg, lines)
    ensures Texts(TextRows(lines, cfg.cols)) == Trimmed(lines)
  {
    hide TrimRight, LineText, TextRow;
    forall i | 0 <= i < |lines|
      ensures LineText(TextRow(lines[i], cfg.cols)) == TrimRight(lines[i])
    {
      TextComesBack(cfg.width, cfg.cols, lines[i]);
    }
  }

  lemma {:induction false} LoggedFeedsAll(s: State, f: Flusher, chunks: seq<seq<Byte>>)
    requires Reached(s) && Shape(s) && ParmOk(s)
    ensures Logged(s, f, chunks).0 == FeedAll(s, chunks)
    decreases |chunks|
  {
    hide GridInv, RowOk, PendOk, HistInv, Feed, Capture;
    if chunks != [] {
      FeedInv(s, chunks[0]);
      LoggedFeedsAll(Feed(s, chunks[0]), Capture(f, Feed(s, chunks[0])).(pending := []), chunks[1..]);
    }
  }

  /** Lines printed to a blank model, in reads of at most 4096 bytes cut anywhere: what the
      session log holds, followed by the text on the screen, is the printed lines in order,
      each without the spaces at its end, but for those that the first read scrolled out. */
  lemma PrintedLinesAreLogged(n: State, lines: seq<Text>, chunks: seq<seq<Byte>>)
    requires IsBlank(n) && n.cfg.cols >= 2 && lines != [] && AllTypable(n.cfg, lines)
    requires chunks != [] && Flatten(chunks) == Printed(lines)
    requires forall i | 0 <= i < |chunks| :: |chunks[i]| <= 4096
    ensures Reached(n) && Shape(n) && ParmOk(n)
    ensures var r := Logged(n, UNARMED, chunks); var missed := |Feed(n, chunks[0]).past.log|;
      && 1 <= |lines| - Gone(n.cfg, lines) <= |r.0.grid| && missed <= |lines|
      && r.2 + Texts(r.0.grid[..|lines| - Gone(n.cfg, lines)]) == Trimmed(lines)[missed..]
  {
    hide IsBlank, Reached, Feed, Logged, Printed, Texts, Trimmed, Gone, Shape, ParmOk, ShowsLines, AllTypable;
    PrintedFinal(n, lines, chunks);
    LoggedLines(n, lines, chunks);
  }

  /** The first capture only notes where it starts: what one read has scrolled out by then is
      in the history, and never in the log. */
  lemma FirstReadIsMissed(n: State, lines: seq<Text>)
    requires IsBlank(n) && lines != [] && AllTypable(n.cfg, lines)
    ensures Reached(n) && Shape(n) && ParmOk(n)
    ensures |Feed(n, Printed(lines)).past.log| == Gone(n.cfg, lines)
    ensures Logged(n, UNARMED, [Printed(lines)]).2 == []
  {
    BlankIsReady(n);
    FeedPrintsLines(n, lines);
    hide GridInv, RowOk, PendOk, HistInv, Feed, AtHome, Printed, TextRow, Shape, ParmOk;
    LogIsExact(n, [Printed(lines)]);
    var t := Feed(n, Printed(lines));
    var chunks := [Printed(lines)];
    assert chunks[1..] == [];
    assert Logged(n, UNARMED, chunks).2 == [] + Logged(t, Flusher(true, t.past.total, []), []).2;
  }

  lemma LoggedLines(n: State, lines: seq<Text>, chunks: seq<seq<Byte>>)
    requires Reached(n) && Shape(n) && ParmOk(n) && n.past.log == [] && n.cfg.cols >= 2 && AllTypable(n.cfg, lines)
    requires chunks != [] && forall i | 0 <= i < |chunks| :: |chunks[i]| <= 4096
    requires ShowsLines(n, Logged(n, UNARMED, chunks).0, lines)
    requires Logged(n, UNARMED, chunks).0.past.clears == Feed(n, chunks[0]).past.clears
    ensures var r := Logged(n, UNARMED, chunks); var missed := |Feed(n, chunks[0]).past.log|;
      && 1 <= |lines| - Gone(n.cfg, lines) <= |r.0.grid| && missed <= |lines|
      && r.2 + Texts(r.0.grid[..|lines| - Gone(n.cfg, lines)]) == Trimmed(lines)[missed..]
  {
    hide Reached, Feed, Logged, Texts, Trimmed, Gone, Shape, ParmOk, ShowsLines, AllTypable;
    LogLosesNothing(n, chunks);
    SplitsAtScreen(n, Logged(n, UNARMED, chunks).0, lines, |Feed(n, chunks[0]).past.log|);
  }

  /** The state after all reads. */
  lemma PrintedFinal(n: State, lines: seq<Text>, chunks: seq<seq<Byte>>)
    requires IsBlank(n) && n.cfg.cols >= 2 && lines != [] && AllTypable(n.cfg, lines)
    requires chunks != [] && Flatten(chunks) == Printed(lines)
    ensures Reached(n) && Shape(n) && ParmOk(n) && n.past.log == []
    ensures ShowsLines(n, Logged(n, UNARMED, chunks).0, lines)
    ensures Logged(n, UNARMED, chunks).0.past.clears == Feed(n, chunks[0]).past.clears
  {
    BlankIsReady(n);
    FeedPrintsLines(n, lines);
    hide GridInv, RowOk, PendOk, HistInv, Feed, Capture, AtHome, Printed, TextRow, TextRows, Shape, ParmOk;
    LoggedFeedsAll(n, UNARMED, chunks);
    ChunkIndependence(n, chunks);
    LoggedKeepsClears(n, chunks);
  }

  lemma LoggedKeepsClears(n: State, chunks: seq<seq<Byte>>)
    requires Reached(n) && Shape(n) && ParmOk(n) && chunks != []
    requires Logged(n, UNARMED, chunks).0.past.clears == n.past.clears
    ensures Feed(n, chunks[0]).past.clears == n.past.clears
  {
    hide GridInv, RowOk, PendOk, HistInv, Feed, Capture;
    FeedInv(n, chunks[0]);
    var t := Feed(n, chunks[0]);
    LoggedClears(t, Capture(UNARMED, t).(pending := []), chunks[1..]);
  }

  /** Log and screen are the rows of the lines. */
  lemma RowsOfLines(n: State, t: State, lines: seq<Text>, missed: nat)
    requires ShowsLines(n, t, lines) && n.past.log == [] && missed <= |t.past.log|
    ensures var gone := Gone(n.cfg, lines);
      && gone < |lines| <= gone + |t.grid| && missed <= gone
      && t.past.log[missed..] == TextRows(lines[missed..gone], n.cfg.cols)
      && t.grid[..|lines| - gone] == TextRows(lines[gone..], n.cfg.cols)
  {
    hide TextRow, Newest, ParmOk;
    var gone := Gone(n.cfg, lines);
    assert t.past.log == TextRows(lines[..gone], n.cfg.cols);
  }

  lemma SplitsAtScreen(n: State, t: State, lines: seq<Text>, missed: nat)
    requires AllTypable(n.cfg, lines) && ShowsLines(n, t, lines) && n.past.log == [] && missed <= |t.past.log|
    ensures var gone := Gone(n.cfg, lines);
      && 1 <= |lines| - gone <= |t.grid| && missed <= |lines|
      && Texts(t.past.log[missed..]) + Texts(t.grid[..|lines| - gone]) == Trimmed(lines)[missed..]
  {
    RowsOfLines(n, t, lines, missed);
    hide ShowsLines, Texts, TextRows, Trimmed, Gone, AllTypable;
    var gone := Gone(n.cfg, lines);
    TypablePart(n.cfg, lines, missed, gone);
    TextsComeBack(n.cfg, lines[missed..gone]);
    TextsComeBack(n.cfg, lines[gone..]);
    TrimmedParts(lines, missed, gone);
  }

  lemma TrimmedParts(lines: seq<Text>, i: nat, j: nat)
    requires i <= j <= |lines|
    ensures Trimmed(lines)[i..] == Trimmed(lines[i..j]) + Trimmed(lines[j..])
  {
    hide TrimRight;
  }

  lemma TypablePart(cfg: Setting, lines: seq<Text>, i: nat, j: nat)
    requires AllTypable(cfg, lines) && i <= j <= |lines|
    ensures AllTypable(cfg, lines[i..j]) && AllTypable(cfg, lines[j..])
  {
    hide Typable;
  }
}
