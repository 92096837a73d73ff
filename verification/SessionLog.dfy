/** Taking confirmed lines out of the history (internal/screen/flush.go) and appending
    them to the session log (internal/ptyproxy/sessionlog.go). */
module SessionLog {
  import opened Bytes
  import opened Utf8
  import opened Terminal
  import opened ControlSequences
  import opened TerminalInvariants
  import opened TerminalTheorems
  import opened VTModel

  type Text = seq<Rune>

  const BLANK: Rune := 0x20
  const LINE_END: Rune := 0x0a
  const PENDING_CAP: nat := 100000

  // ---- Text of a line ----

  /** The runes of a row: continuation cells skipped, empty cells as spaces. */
  function RowRunes(row: Row): Text {
    if row == [] then []
    else
      var c := row[|row| - 1];
      RowRunes(row[..|row| - 1]) + (if c.cont then [] else [if c.r == 0 then BLANK else c.r])
  }

  function TrimRight(t: Text): Text {
    if t != [] && t[|t| - 1] == BLANK then TrimRight(t[..|t| - 1]) else t
  }

  function LineText(row: Row): Text {
    TrimRight(RowRunes(row))
  }

  function Texts(rows: seq<Row>): (ts: seq<Text>)
    ensures |ts| == |rows|
    ensures forall i | 0 <= i < |rows| :: ts[i] == LineText(rows[i])
  {
    seq(|rows|, i requires 0 <= i < |rows| => LineText(rows[i]))
  }

  // ---- What the text of a line is ----

  /** Cells in front of column `x` that are not continuation cells: where in the text the
      rune of column `x` stands. */
  function Column(row: Row, x: nat): nat
    requires x <= |row|
  {
    if x == 0 then 0 else Column(row, x - 1) + (if row[x - 1].cont then 0 else 1)
  }

  lemma {:induction false} ColumnOfPrefix(row: Row, n: nat, x: nat)
    requires x <= n <= |row|
    ensures Column(row[..n], x) == Column(row, x)
    decreases x
  {
    if x > 0 {
      ColumnOfPrefix(row, n, x - 1);
    }
  }

  /** One rune for each cell that is not a continuation cell, in the order of the columns: its
      rune, or a space if it is empty. */
  lemma {:induction false} RunesInOrder(row: Row, x: nat)
    requires x < |row|
    ensures |RowRunes(row)| == Column(row, |row|)
    ensures !row[x].cont ==>
      && Column(row, x) < |RowRunes(row)|
      && RowRunes(row)[Column(row, x)] == (if row[x].r == 0 then 0x20 else row[x].r)
    decreases |row|
  {
    var n := |row| - 1;
    ColumnOfPrefix(row, n, n);
    if x < n {
      RunesInOrder(row[..n], x);
      ColumnOfPrefix(row, n, x);
    } else if n > 0 {
      RunesInOrder(row[..n], 0);
    }
  }

  lemma {:induction false} ColumnOfNarrow(row: Row, x: nat)
    requires x <= |row| && forall i | 0 <= i < |row| :: !row[i].cont
    ensures Column(row, x) == x
    decreases x
  {
    if x > 0 {
      ColumnOfNarrow(row, x - 1);
    }
  }

  /** Without continuation cells, the rune of column `x` is rune `x`. */
  lemma NarrowRunes(row: Row)
    requires forall i | 0 <= i < |row| :: !row[i].cont
    ensures |RowRunes(row)| == |row|
    ensures forall x | 0 <= x < |row| :: RowRunes(row)[x] == if row[x].r == 0 then 0x20 else row[x].r
  {
    if row != [] {
      RunesInOrder(row, 0);
      ColumnOfNarrow(row, |row|);
    }
    forall x | 0 <= x < |row|
      ensures |RowRunes(row)| == |row| && RowRunes(row)[x] == if row[x].r == 0 then 0x20 else row[x].r
    {
      RunesInOrder(row, x);
      ColumnOfNarrow(row, x);
    }
  }

  function Spaces(n: nat): (t: Text)
    ensures |t| == n && forall i | 0 <= i < n :: t[i] == 0x20
  {
    seq(n, _ => 0x20)
  }

  /** Exactly the spaces at the end are cut off. */
  lemma {:induction false} TrimRightIsExact(t: Text)
    ensures |TrimRight(t)| <= |t| && t == TrimRight(t) + Spaces(|t| - |TrimRight(t)|)
    ensures TrimRight(t) != [] ==> TrimRight(t)[|TrimRight(t)| - 1] != 0x20
    decreases |t|
  {
    if t != [] && t[|t| - 1] == BLANK {
      var front := t[..|t| - 1];
      TrimRightIsExact(front);
      assert t == front + [BLANK];
      assert Spaces(|t| - |TrimRight(t)|) == Spaces(|front| - |TrimRight(front)|) + [BLANK];
    }
  }

  /** A logged line is the runes of the row without the spaces at the end. */
  lemma LineTextIsExact(row: Row)
    ensures |LineText(row)| <= |RowRunes(row)|
    ensures RowRunes(row) == LineText(row) + Spaces(|RowRunes(row)| - |LineText(row)|)
    ensures LineText(row) != [] ==> LineText(row)[|LineText(row)| - 1] != 0x20
  {
    TrimRightIsExact(RowRunes(row));
  }

  method ReadLine(row: array<Cell>) returns (t: Text)
    ensures t == LineText(row[..])
  {
    t := [];
    for x := 0 to row.Length
      invariant t == RowRunes(row[..x])
    {
      assert row[..x + 1][..x] == row[..x];
      if !row[x].cont {
        t := t + [if row[x].r == 0 then BLANK else row[x].r];
      }
    }
    assert row[..row.Length] == row[..];
    while t != [] && t[|t| - 1] == BLANK
      invariant TrimRight(t) == LineText(row[..])
      decreases |t|
    {
      t := t[..|t| - 1];
    }
  }

  method ReadLines(rows: seq<array<Cell>>, ghost lines: seq<Row>) returns (ts: seq<Text>)
    requires |rows| == |lines| && forall i | 0 <= i < |rows| :: rows[i][..] == lines[i]
    ensures ts == Texts(lines)
  {
    ts := [];
    for i := 0 to |rows|
      invariant ts == Texts(lines)[..i]
    {
      var t := ReadLine(rows[i]);
      ts := ts + [t];
    }
  }

  // ---- The flusher ----

  datatype Flusher = Flusher(armed: bool, lastTotal: nat, pending: seq<Text>)

  const UNARMED := Flusher(false, 0, [])

  /** The first call only notes where it starts; later ones return the lines confirmed
      since the previous call, as far as history still holds them. */
  function TakeNew(f: Flusher, s: State): (Flusher, seq<Text>)
    requires HistInv(s)
  {
    var total := s.past.total;
    var first := total - |s.past.lines|;
    var lo := if f.lastTotal < first then first else f.lastTotal;
    if !f.armed then (f.(armed := true, lastTotal := total), [])
    else (f.(lastTotal := total), if lo >= total then [] else Texts(s.past.lines[lo - first..]))
  }

  function Capped(pending: seq<Text>): seq<Text> {
    if |pending| > PENDING_CAP then pending[|pending| - PENDING_CAP..] else pending
  }

  function Capture(f: Flusher, s: State): Flusher
    requires HistInv(s)
  {
    var (g, new_) := TakeNew(f, s);
    if new_ == [] then g else g.(pending := Capped(g.pending + new_))
  }

  /** The cap keeps the newest lines; applying it after every capture or once is the same. */
  lemma CapKeepsNewest(a: seq<Text>, b: seq<Text>)
    ensures |Capped(a)| == (if |a| < 100000 then |a| else 100000) && Capped(a) == a[|a| - |Capped(a)|..]
    ensures Capped(Capped(a) + b) == Capped(a + b)
  {
    if |a| > PENDING_CAP {
      var cut := |a| - PENDING_CAP;
      assert a + b == a[..cut] + (a[cut..] + b);
    }
  }

  class HistoryFlusher {
    var armed: bool
    var lastTotal: nat
    var pending: seq<Text>

    function Abs(): Flusher
      reads this
    {
      Flusher(armed, lastTotal, pending)
    }

    constructor ()
      ensures Abs() == UNARMED
    {
      armed, lastTotal, pending := false, 0, [];
    }

    /** Forgets where it was; lines already captured stay. */
    method Reset()
      modifies `armed, `lastTotal
      ensures !armed && lastTotal == 0
    {
      armed, lastTotal := false, 0;
    }

    method TakeNewLines(v: VT) returns (lines: seq<Text>)
      requires v.Valid() && HistInv(v.Abs())
      modifies `armed, `lastTotal
      ensures (Abs(), lines) == TakeNew(old(Abs()), v.Abs())
    {
      hide HistInv, LineText;
      var total := v.histTotal;
      if !armed {
        armed, lastTotal := true, total;
        return [];
      }
      HistoryReads(v);
      var held := ReadLines(v.hist, v.past.lines);
      var first := total - |held|;
      var lo := lastTotal;
      if lo < first {
        lo := first;
      }
      lastTotal := total;
      if lo >= total {
        return [];
      }
      lines := held[lo - first..total - first];
      assert lines == Texts(v.past.lines[lo - first..]);
    }

    method CaptureLines(v: VT)
      requires v.Valid() && HistInv(v.Abs())
      modifies this
      ensures Abs() == Capture(old(Abs()), v.Abs())
    {
      hide HistInv, TakeNew;
      var n := TakeNewLines(v);
      if |n| > 0 {
        pending := pending + n;
        if |pending| > PENDING_CAP {
          pending := pending[|pending| - PENDING_CAP..];
        }
      }
    }

    method Drain() returns (out: seq<Text>)
      modifies `pending
      ensures out == old(pending) && pending == []
    {
      out := pending;
      pending := [];
    }
  }

  /** Reading the history through its references. */
  lemma HistoryReads(v: VT)
    requires v.Valid() && HistInv(v.Abs())
    ensures |v.hist| == |v.past.lines| <= v.histTotal == v.past.total
    ensures forall i | 0 <= i < |v.hist| :: v.hist[i][..] == v.past.lines[i]
  {
  }

  // ---- The log ----

  /** Lines as the file holds them: each followed by a line end. */
  function Terminated(lines: seq<Text>): Text {
    if lines == [] then [] else lines[0] + [LINE_END] + Terminated(lines[1..])
  }

  lemma {:induction false} TerminatedAppend(a: seq<Text>, b: seq<Text>)
    ensures Terminated(a + b) == Terminated(a) + Terminated(b)
  {
    if a == [] {
      assert a + b == b;
    } else {
      assert (a + b)[1..] == a[1..] + b;
      TerminatedAppend(a[1..], b);
    }
  }

  lemma TerminatedOne(line: Text)
    ensures Terminated([]) == [] && Terminated([line]) == line + [LINE_END]
  {
    assert Terminated([line]) == line + [LINE_END] + Terminated([line][1..]);
  }

  /** strings.Join(lines, "\n"). */
  function Joined(lines: seq<Text>): Text {
    if lines == [] then []
    else if |lines| == 1 then lines[0]
    else lines[0] + [LINE_END] + Joined(lines[1..])
  }

  lemma {:induction false} JoinedTerminated(lines: seq<Text>)
    requires lines != []
    ensures Joined(lines) + [LINE_END] == Terminated(lines)
    decreases |lines|
  {
    if |lines| > 1 {
      JoinedTerminated(lines[1..]);
    }
  }

  /** Visible lines without the blank ones at the end. */
  function DropBlankEnd(lines: seq<Text>): seq<Text> {
    if lines != [] && lines[|lines| - 1] == [] then DropBlankEnd(lines[..|lines| - 1]) else lines
  }

  /** Exactly the blank lines at the end are dropped. */
  lemma {:induction false} DropBlankEndIsExact(lines: seq<Text>)
    ensures DropBlankEnd(lines) <= lines
    ensures forall i | |DropBlankEnd(lines)| <= i < |lines| :: lines[i] == []
    ensures DropBlankEnd(lines) != [] ==> DropBlankEnd(lines)[|DropBlankEnd(lines)| - 1] != []
    decreases |lines|
  {
    if lines != [] && lines[|lines| - 1] == [] {
      DropBlankEndIsExact(lines[..|lines| - 1]);
    }
  }

  /** `===== session end ` */
  const END_HEAD: Text :=
    [0x3d, 0x3d, 0x3d, 0x3d, 0x3d, 0x20, 0x73, 0x65, 0x73, 0x73, 0x69, 0x6f, 0x6e, 0x20, 0x65, 0x6e, 0x64, 0x20]
  /** ` =====` */
  const END_TAIL: Text := [0x20, 0x3d, 0x3d, 0x3d, 0x3d, 0x3d]

  /** The file holds what was written after its first line. */
  class Log {
    const flusher: HistoryFlusher
    var file: Text
    var open: bool

    constructor (flusher: HistoryFlusher)
      ensures this.flusher == flusher && file == [] && open
    {
      this.flusher := flusher;
      file, open := [], true;
    }

    /** After every read: capture, drain, append. A closed log takes nothing. */
    method CaptureAndDrain(v: VT)
      requires v.Valid() && HistInv(v.Abs())
      modifies this`file, flusher
      ensures !open ==> flusher.Abs() == old(flusher.Abs()) && file == old(file)
      ensures open ==> var f := Capture(old(flusher.Abs()), v.Abs());
        flusher.Abs() == f.(pending := []) && file == old(file) + Terminated(f.pending)
    {
      hide HistInv, Capture;
      if !open {
        return;
      }
      flusher.CaptureLines(v);
      var n := flusher.Drain();
      if |n| > 0 {
        JoinedTerminated(n);
        file := file + (Joined(n) + [LINE_END]);
      }
    }

    /** At the end: what is still unwritten, the visible lines, the end line with the time;
        then the log is closed, and closing it again does nothing. */
    method Finalize(v: VT, time: Text)
      requires v.Valid() && HistInv(v.Abs())
      modifies this, flusher
      ensures !open
      ensures !old(open) ==> file == old(file) && flusher.Abs() == old(flusher.Abs())
      ensures old(open) ==> var f := Capture(old(flusher.Abs()), v.Abs());
        file == old(file) + Terminated(f.pending) + Terminated(DropBlankEnd(Texts(v.grid)))
                + Terminated([END_HEAD + time + END_TAIL])
    {
      hide HistInv, Capture, LineText, Terminated, Joined, VT.GridValid, VT.HistValid;
      if !open {
        return;
      }
      CaptureAndDrain(v);
      GridReads(v);
      var vis := ReadLines(v.buf, v.grid);
      while vis != [] && vis[|vis| - 1] == []
        invariant DropBlankEnd(vis) == DropBlankEnd(Texts(v.grid))
        decreases |vis|
      {
        vis := vis[..|vis| - 1];
      }
      if |vis| > 0 {
        JoinedTerminated(vis);
        file := file + (Joined(vis) + [LINE_END]);
      }
      var end := END_HEAD + time + END_TAIL;
      TerminatedOne(end);
      file := file + (end + [LINE_END]);
      open := false;
    }
  }

  lemma GridReads(v: VT)
    requires v.Valid()
    ensures |v.buf| == |v.grid| && forall i | 0 <= i < |v.buf| :: v.buf[i][..] == v.grid[i]
  {
  }

  // ---- Nothing is lost ----

  /** The reads of masterPump, each followed by a capture: the final model, the flusher,
      and the lines written. */
  function Logged(s: State, f: Flusher, chunks: seq<seq<Byte>>): (r: (State, Flusher, seq<Text>))
    requires Reached(s) && Shape(s) && ParmOk(s)
    ensures Reached(r.0)
    decreases |chunks|
  {
    if chunks == [] then (s, f, [])
    else
      FeedInv(s, chunks[0]);
      var t := Feed(s, chunks[0]);
      var g := Capture(f, t);
      var rest := Logged(t, g.(pending := []), chunks[1..]);
      (rest.0, rest.1, g.pending + rest.2)
  }

  lemma LoggedStep(s: State, f: Flusher, chunks: seq<seq<Byte>>)
    requires Reached(s) && Shape(s) && ParmOk(s) && chunks != []
    requires Reached(Feed(s, chunks[0]))
    ensures var t := Feed(s, chunks[0]); var g := Capture(f, t); var rest := Logged(t, g.(pending := []), chunks[1..]);
      && Logged(s, f, chunks).0 == rest.0
      && Terminated(Logged(s, f, chunks).2) == Terminated(g.pending) + Terminated(rest.2)
  {
    hide GridInv, RowOk, PendOk, Feed, Capture;
    var t := Feed(s, chunks[0]);
    var g := Capture(f, t);
    TerminatedAppend(g.pending, Logged(t, g.(pending := []), chunks[1..]).2);
  }

  /** One read: feed it, then capture and drain. */
  method ReadLogged(v: VT, log: Log, chunk: seq<Byte>)
    requires v.Valid() && Reached(v.Abs()) && log.open
    modifies v, v.buf, log`file, log.flusher
    ensures v.Valid() && v.Abs() == Terminal.Feed(old(v.Abs()), chunk) && Reached(v.Abs())
    ensures forall a | a in v.buf :: a in old(v.buf) || fresh(a)
    ensures var g := Capture(old(log.flusher.Abs()), v.Abs());
      log.flusher.Abs() == g.(pending := []) && log.file == old(log.file) + Terminated(g.pending)
  {
    hide GridInv, RowOk, PendOk, Terminal.Feed, Capture, VT.GridValid, VT.HistValid;
    FeedInv(v.Abs(), chunk);
    v.Feed(chunk);
    log.CaptureAndDrain(v);
  }

  /** The read loop of masterPump with the log on. */
  method PumpLogged(v: VT, log: Log, chunks: seq<seq<Byte>>)
    requires v.Valid() && Reached(v.Abs()) && log.open && log.flusher.pending == []
    modifies v, v.buf, log`file, log.flusher
    ensures v.Valid() && v.Abs() == Logged(old(v.Abs()), old(log.flusher.Abs()), chunks).0
    ensures log.file == old(log.file)
                     + Terminated(Logged(old(v.Abs()), old(log.flusher.Abs()), chunks).2)
  {
    hide GridInv, RowOk, PendOk, Terminal.Feed, Capture, VT.GridValid, VT.HistValid;
    ghost var all := Logged(v.Abs(), log.flusher.Abs(), chunks);
    assert chunks[0..] == chunks;
    var i := 0;
    while i < |chunks|
      invariant i <= |chunks| && v.Valid() && Reached(v.Abs()) && log.flusher.pending == []
      invariant forall a | a in v.buf :: a in old(v.buf) || fresh(a)
      invariant all.0 == Logged(v.Abs(), log.flusher.Abs(), chunks[i..]).0
      invariant old(log.file) + Terminated(all.2)
             == log.file + Terminated(Logged(v.Abs(), log.flusher.Abs(), chunks[i..]).2)
    {
      ghost var s, f := v.Abs(), log.flusher.Abs();
      assert chunks[i..][1..] == chunks[i + 1..];
      assert forall y | 0 <= y < |v.buf| :: v.buf[y] in v.buf;
      ReadLogged(v, log, chunks[i]);
      LoggedStep(s, f, chunks[i..]);
      i := i + 1;
    }
  }

  lemma HistoryTail(s: State, lo: nat)
    requires Inv(s) && |s.past.log| - |s.past.lines| <= lo <= |s.past.log|
    ensures HistInv(s) && s.past.total == |s.past.log| && |s.past.lines| <= |s.past.log| && |s.past.lines| <= HIST_MAX
    ensures s.past.lines[lo - (|s.past.log| - |s.past.lines|)..] == s.past.log[lo..]
  {
    hide GridInv, RowOk;
  }

  /** One capture writes exactly the lines scrolled out since the last, provided history
      still holds them all; otherwise it writes those that are left. */
  lemma CaptureIsExact(f: Flusher, s: State)
    requires Inv(s) && f.armed && f.pending == [] && f.lastTotal <= |s.past.log|
    ensures var lost := |s.past.log| - |s.past.lines|;
      Capture(f, s) == Flusher(true, |s.past.log|,
        Texts(s.past.log[if f.lastTotal < lost then lost else f.lastTotal..]))
  {
    hide Inv, HistInv, LineText;
    var lost := |s.past.log| - |s.past.lines|;
    var lo := if f.lastTotal < lost then lost else f.lastTotal;
    HistoryTail(s, lo);
    assert [] + Texts(s.past.log[lo..]) == Texts(s.past.log[lo..]);
  }

  /** With reads of at most 4096 bytes and two columns or more, a read never scrolls out
      more lines than history holds. */
  lemma ReadFitsHistory(s: State, p: seq<Byte>)
    requires Reached(s) && s.cfg.cols >= 2 && |p| <= 4096
    requires Feed(s, p).past.clears == s.past.clears
    ensures |Feed(s, p).past.log| - |Feed(s, p).past.lines| <= |s.past.log|
  {
    FeedInv(s, p);
    hide RowOk, Feed;
  }

  /** Every capture comes while history still holds all lines since the capture before. */
  ghost predicate InTime(s: State, f: Flusher, chunks: seq<seq<Byte>>)
    requires Reached(s) && Shape(s) && ParmOk(s)
    decreases |chunks|
  {
    chunks == [] ||
    (FeedInv(s, chunks[0]);
     var t := Feed(s, chunks[0]);
     && |t.past.log| - |t.past.lines| <= f.lastTotal
     && InTime(t, Capture(f, t).(pending := []), chunks[1..]))
  }

  lemma TextsFrom(log: seq<Row>, i: nat, j: nat)
    requires i <= j <= |log|
    ensures Texts(log[i..]) == Texts(log[i..j]) + Texts(log[j..])
  {
    hide LineText;
  }

  lemma SameFront<T>(front: seq<T>, a: seq<T>, b: seq<T>)
    ensures front + a == front + b <==> a == b
  {
    assert (front + a)[|front|..] == a && (front + b)[|front|..] == b;
  }

  lemma PrefixSlice<T>(a: seq<T>, b: seq<T>, i: nat)
    requires a <= b && i <= |a|
    ensures b[i..|a|] == a[i..]
  {
  }

  /** From one capture on: never more lines than were scrolled out, and just those if and only
      if every capture was in time. */
  lemma {:induction false} LoggedFrom(s: State, f: Flusher, chunks: seq<seq<Byte>>)
    requires Reached(s) && f == Flusher(true, |s.past.log|, [])
    ensures var r := Logged(s, f, chunks);
      && s.past.log <= r.0.past.log && |r.2| <= |r.0.past.log| - |s.past.log|
      && (r.2 == Texts(r.0.past.log[|s.past.log|..]) <==> InTime(s, f, chunks))
    decreases |chunks|
  {
    hide GridInv, RowOk, PendOk, Feed, Capture, LineText, HistInv;
    if chunks == [] {
      assert Logged(s, f, chunks) == (s, f, []);
    } else {
      FeedInv(s, chunks[0]);
      var t := Feed(s, chunks[0]);
      var g := Capture(f, t);
      var lost := |t.past.log| - |t.past.lines|;
      CaptureIsExact(f, t);
      LoggedFrom(t, g.(pending := []), chunks[1..]);
      var u := Logged(t, g.(pending := []), chunks[1..]);
      if lost <= f.lastTotal {
        TextsFrom(u.0.past.log, |s.past.log|, |t.past.log|);
        PrefixSlice(t.past.log, u.0.past.log, |s.past.log|);
        SameFront(g.pending, u.2, Texts(u.0.past.log[|t.past.log|..]));
      }
    }
  }

  /** The session log holds exactly the lines scrolled out after the first capture, each once
      and in order, if and only if history never dropped a line, at its cap or by an erasure,
      before the capture that should have written it. */
  lemma LogIsExact(s: State, chunks: seq<seq<Byte>>)
    requires Reached(s) && Shape(s) && ParmOk(s) && chunks != []
    ensures var t := Feed(s, chunks[0]); var r := Logged(s, UNARMED, chunks);
      && Reached(t) && t.past.log <= r.0.past.log
      && (r.2 == Texts(r.0.past.log[|t.past.log|..]) <==> InTime(t, Flusher(true, |t.past.log|, []), chunks[1..]))
  {
    hide GridInv, PendOk, Feed, LineText, RowOk;
    FeedInv(s, chunks[0]);
    var t := Feed(s, chunks[0]);
    assert Capture(UNARMED, t) == Flusher(true, |t.past.log|, []);
    LoggedFrom(t, Flusher(true, |t.past.log|, []), chunks[1..]);
    assert forall x: seq<Text> :: [] + x == x;
  }

  lemma {:induction false} FitsInTime(s: State, f: Flusher, chunks: seq<seq<Byte>>)
    requires Reached(s) && s.cfg.cols >= 2 && f == Flusher(true, |s.past.log|, [])
    requires forall i | 0 <= i < |chunks| :: |chunks[i]| <= 4096
    requires Logged(s, f, chunks).0.past.clears == s.past.clears
    ensures InTime(s, f, chunks)
    decreases |chunks|
  {
    hide GridInv, RowOk, PendOk, Feed, Capture, LineText, HistInv;
    if chunks != [] {
      FeedInv(s, chunks[0]);
      var t := Feed(s, chunks[0]);
      var g := Capture(f, t);
      LoggedClears(t, g.(pending := []), chunks[1..]);
      ReadFitsHistory(s, chunks[0]);
      CaptureIsExact(f, t);
      FitsInTime(t, g.(pending := []), chunks[1..]);
    }
  }

  lemma {:induction false} LoggedClears(s: State, f: Flusher, chunks: seq<seq<Byte>>)
    requires Reached(s) && Shape(s) && ParmOk(s)
    ensures Logged(s, f, chunks).0.past.clears >= s.past.clears
    decreases |chunks|
  {
    hide GridInv, RowOk, PendOk, Feed, Capture;
    if chunks != [] {
      FeedInv(s, chunks[0]);
      LoggedClears(Feed(s, chunks[0]), Capture(f, Feed(s, chunks[0])).(pending := []), chunks[1..]);
    }
  }

  /** It is so over any run of reads of at most 4096 bytes, on two columns or more and without
      the scrollback being erased. */
  lemma LogLosesNothing(s: State, chunks: seq<seq<Byte>>)
    requires Reached(s) && s.cfg.cols >= 2 && chunks != []
    requires forall i | 0 <= i < |chunks| :: |chunks[i]| <= 4096
    requires Logged(s, UNARMED, chunks).0.past.clears == Feed(s, chunks[0]).past.clears
    ensures var armedAt := |Feed(s, chunks[0]).past.log|;
      && armedAt <= |Logged(s, UNARMED, chunks).0.past.log|
      && Logged(s, UNARMED, chunks).2 == Texts(Logged(s, UNARMED, chunks).0.past.log[armedAt..])
  {
    hide GridInv, PendOk, Feed, LineText, RowOk;
    FeedInv(s, chunks[0]);
    LogIsExact(s, chunks);
    var t := Feed(s, chunks[0]);
    FitsInTime(t, Flusher(true, |t.past.log|, []), chunks[1..]);
  }

  /** A line scrolled out of the last line, and the scrollback erased, in one read. */
  function ScrollAndErase(rows: nat): seq<Byte> {
    CsiBytes(false, Numerals([rows]), 0x48) + ([0x0a] + CsiBytes(false, Numerals([3]), 0x4a))
  }

  /** That line is never written, whatever the size of the model. */
  lemma ErasedIsLost(width: Rune -> Width, cols: nat, rows: nat)
    requires cols >= 1 && rows >= 1
    ensures var n := NewModel(width, cols, rows);
      && Reached(n) && Shape(n) && ParmOk(n)
      && var r := Logged(n, UNARMED, [[], ScrollAndErase(rows)]);
      && r.0.past.log != [] && r.2 != Texts(r.0.past.log)
  {
    var n := NewModel(width, cols, rows);
    NewModelInv(width, cols, rows);
    ScrollAndEraseRuns(n);
    hide Inv, PendOk, Shape, ParmOk, Terminal.Run, Feed, LineText, ScrollAndErase, NewModel;
    FeedNothing(n);
    FeedIsRun(n, ScrollAndErase(rows));
    ErasedTooLate(n, ScrollAndErase(rows));
  }

  lemma ErasedTooLate(n: State, bytes: seq<Byte>)
    requires Reached(n) && Shape(n) && ParmOk(n) && n.past.log == [] && Feed(n, []) == n
    requires var s := Feed(n, bytes); |s.past.log| > 0 && s.past.lines == []
    ensures var r := Logged(n, UNARMED, [[], bytes]); r.0.past.log != [] && r.2 != Texts(r.0.past.log)
  {
    hide GridInv, HistInv, PendOk, Shape, ParmOk, Feed, LineText, Capture;
    FeedReaches(n, bytes);
    var chunks: seq<seq<Byte>> := [[], bytes];
    var rest: seq<seq<Byte>> := [bytes];
    assert chunks[1..] == rest && rest[1..] == [];
    LogIsExact(n, chunks);
    assert !InTime(n, Flusher(true, 0, []), rest);
    var r := Logged(n, UNARMED, chunks);
    assert r.0.past.log[0..] == r.0.past.log;
    var s := Feed(n, bytes);
    var g := Capture(UNARMED, n).(pending := []);
    assert Logged(n, g, rest).0 == Logged(s, Capture(g, s).(pending := []), []).0 == s;
  }

  lemma ScrollAndEraseRuns(n: State)
    requires Ready(n) && n.top == 0 && n.bot == n.cfg.rows - 1
    ensures var s := Terminal.Run(n, ScrollAndErase(n.cfg.rows)); |s.past.log| > 0 && s.past.lines == []
  {
    hide Terminal.Run, Numerals, CsiBytes, CsiDispatch, AfterCsi, ControlByte;
    CupReaches(n, n.cfg.rows - 1);
    hide Shape, ParmOk;
    var erase := CsiBytes(false, Numerals([3]), 0x4a);
    var t := AfterCsi(n, false, Numerals([n.cfg.rows]), 0x48);
    ScrollsOut(t);
    RunCsi(n, false, Numerals([n.cfg.rows]), 0x48, [0x0a] + erase);
    RunControl(t, 0x0a, erase);
    RunErase(ControlByte(t, 0x0a));
  }

  lemma ScrollsOut(t: State)
    requires Ready(t) && t.cy == t.bot && t.top < t.cfg.rows
    ensures Ready(ControlByte(t, 0x0a)) && |ControlByte(t, 0x0a).past.log| > 0
  {
  }

  lemma RunErase(s: State)
    requires Ready(s)
    ensures var t := Terminal.Run(s, CsiBytes(false, Numerals([3]), 0x4a));
      t.past.lines == [] && t.past.log == s.past.log
  {
    EraseForgets(s);
    hide Shape, Terminal.Run, Numerals, CsiBytes, CsiDispatch, AfterCsi;
    RunCsi(s, false, Numerals([3]), 0x4a, []);
    assert CsiBytes(false, Numerals([3]), 0x4a) + [] == CsiBytes(false, Numerals([3]), 0x4a);
    RunNothing(AfterCsi(s, false, Numerals([3]), 0x4a));
  }

  lemma EraseForgets(s: State)
    requires Ready(s)
    ensures AllParameters(Numerals([3]))
    ensures var t := AfterCsi(s, false, Numerals([3]), 0x4a);
      t.past.lines == [] && t.past.log == s.past.log
  {
    hide Shape, Numerals, Params, BlankGrid;
    ParamsInvertNumerals([3]);
  }

  // ---- Reading the file back ----

  /** The lines of a file in which every line is terminated. */
  function SplitLines(file: Text, cur: Text): seq<Text> {
    if file == [] then []
    else if file[0] == LINE_END then [cur] + SplitLines(file[1..], [])
    else SplitLines(file[1..], cur + [file[0]])
  }

  lemma {:induction false} SplitOne(cur: Text, line: Text, rest: Text)
    requires LINE_END !in line
    ensures SplitLines(line + [LINE_END] + rest, cur) == [cur + line] + SplitLines(rest, [])
    decreases |line|
  {
    var all := line + [LINE_END] + rest;
    if line == [] {
      assert all[1..] == rest && cur + line == cur;
    } else {
      assert all[1..] == line[1..] + [LINE_END] + rest;
      SplitOne(cur + [line[0]], line[1..], rest);
      assert cur + [line[0]] + line[1..] == cur + line;
    }
  }

  lemma {:induction false} SplitInvertsTerminated(lines: seq<Text>)
    requires forall i | 0 <= i < |lines| :: LINE_END !in lines[i]
    ensures SplitLines(Terminated(lines), []) == lines
    decreases |lines|
  {
    if lines != [] {
      SplitOne([], lines[0], Terminated(lines[1..]));
      SplitInvertsTerminated(lines[1..]);
      assert [] + lines[0] == lines[0];
    }
  }

  lemma {:induction false} RowRunesPrintable(width: Rune -> Width, wide: bool, row: Row)
    requires RowOk(width, wide, row)
    ensures LINE_END !in RowRunes(row)
    decreases |row|
  {
    if row != [] {
      assert CellOk(width, wide, row[|row| - 1]);
      assert RowOk(width, wide, row[..|row| - 1]) by { PrefixOk(width, wide, row, |row| - 1); }
      RowRunesPrintable(width, wide, row[..|row| - 1]);
    }
  }

  lemma PrefixOk(width: Rune -> Width, wide: bool, row: Row, n: nat)
    requires RowOk(width, wide, row) && n <= |row|
    ensures RowOk(width, wide, row[..n])
  {
    forall x | 0 <= x < n - 1
      ensures PairOk(width, row[..n][x], row[..n][x + 1])
    {
      assert PairOk(width, row[x], row[x + 1]);
    }
  }

  /** The file, split back into lines, is line for line what was scrolled out. */
  lemma LogReadsBack(s: State, from: nat)
    requires Inv(s) && from <= |s.past.log|
    ensures SplitLines(Terminated(Texts(s.past.log[from..])), []) == Texts(s.past.log[from..])
  {
    hide GridInv, RowOk, RowRunes, TrimRight;
    var lines := Texts(s.past.log[from..]);
    forall i | 0 <= i < |lines|
      ensures LINE_END !in lines[i]
    {
      var row := s.past.log[from..][i];
      RowRunesPrintable(s.cfg.width, s.wideDrawn, row);
      LineTextIsExact(row);
      assert forall i | 0 <= i < |LineText(row)| :: RowRunes(row)[i] == LineText(row)[i];
    }
    SplitInvertsTerminated(lines);
  }
}
