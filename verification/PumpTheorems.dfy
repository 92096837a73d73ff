/** Main results about the pump, over every sequence of reads, timers and time. */
module PumpTheorems {
  import opened Bytes
  import opened SyncWrap
  import opened Pump

  function Max(a: int, b: int): int {
    if a < b then b else a
  }

  // ---- What every state keeps ----

  /** The tracker is the one a new tracker would be on the bytes now in the buffer. */
  ghost predicate Coupled(cfg: Config, p: State) {
    p.tracker == if cfg.syncWrap then Tracked(p.buf) else FRESH
  }

  /** A kept tail is at most MAX_TAIL_HOLD long and is one unfinished sequence. */
  ghost predicate OnlyTail(cfg: Config, p: State) {
    p.buf != [] ==> cfg.syncWrap && Split(p.buf) == 0 && |p.buf| <= MAX_TAIL_HOLD
  }

  lemma FlushCouples(cfg: Config, p: State, eof: bool)
    requires Coupled(cfg, p)
    ensures Coupled(cfg, FlushStep(cfg, p, eof)) && OnlyTail(cfg, FlushStep(cfg, p, eof))
    ensures eof ==> FlushStep(cfg, p, eof).buf == []
  {
    hide Strip, Rebased, Tracked;
    RebaseIsFresh(p.buf);
    EmptyTracked();
  }

  lemma EmptyTracked()
    ensures Tracked([]) == FRESH
  {
  }

  lemma AppendCouples(cfg: Config, p: State, data: seq<Byte>)
    requires Coupled(cfg, p)
    ensures Coupled(cfg, Appended(cfg, p, data))
  {
    TrackMoreTracked(p.buf, data);
  }

  /** The reachable timer states: armed or nothing but an unfinished sequence in the buffer. */
  ghost predicate TimerOk(cfg: Config, p: State) {
    p.buf != [] ==> p.idle.Due? || OnlyTail(cfg, p)
  }

  /** With a buffer limit the buffer is never longer than the limit minus one, or than the
      longest tail that is held back. */
  ghost predicate BufferOk(cfg: Config, p: State) {
    cfg.maxBuffer > 0 ==> |p.buf| <= Max(cfg.maxBuffer - 1, MAX_TAIL_HOLD)
  }

  lemma StepKeeps(cfg: Config, p: State, ev: Event)
    requires Coupled(cfg, p) && TimerOk(cfg, p) && BufferOk(cfg, p)
    ensures var q := Step(cfg, p, ev); Coupled(cfg, q) && TimerOk(cfg, q) && BufferOk(cfg, q)
    ensures Step(cfg, p, ev).ended && !p.ended ==> Step(cfg, p, ev).buf == []
  {
    hide FlushStep, Tracked, TrackMore, Stamped;
    match ev
    case Read(data, held) =>
      var q := Appended(cfg, p, data);
      AppendCouples(cfg, p, data);
      FlushCouples(cfg, q, false);
    case IdleFires => FlushCouples(cfg, p.(idle := Off), false);
    case MaxHoldFires => FlushCouples(cfg, p.(maxHold := Off), false);
    case Eof => FlushCouples(cfg, p, true);
    case Pass(d) =>
  }

  /** Coupling, timers and buffer bound in every reachable state; after the end of the
      stream nothing is left in the buffer. */
  lemma {:induction false} RunKeeps(cfg: Config, evs: seq<Event>)
    ensures var p := Run(cfg, evs); Coupled(cfg, p) && TimerOk(cfg, p) && BufferOk(cfg, p)
    ensures Run(cfg, evs).ended ==> Run(cfg, evs).buf == []
    decreases |evs|
  {
    hide Step, Coupled, TimerOk, BufferOk;
    if evs == [] {
      StartKeeps(cfg);
    } else {
      var n := |evs| - 1;
      RunKeeps(cfg, evs[..n]);
      StepKeeps(cfg, Run(cfg, evs[..n]), evs[n]);
      EndedStays(cfg, Run(cfg, evs[..n]), evs[n]);
    }
  }

  lemma StartKeeps(cfg: Config)
    ensures Coupled(cfg, START) && TimerOk(cfg, START) && BufferOk(cfg, START)
  {
  }

  lemma EndedStays(cfg: Config, p: State, ev: Event)
    ensures p.ended ==> Step(cfg, p, ev) == p
  {
  }

  // ---- Conservation ----

  function PieceBytes(piece: Piece): seq<Byte> {
    match piece
    case Wrapped(seg) => seg
    case Raw(seg) => seg
    case Last(head, tail) => head + tail
  }

  /** The write a piece causes, if any. */
  function Written(piece: Piece): seq<seq<Byte>> {
    match piece
    case Wrapped(seg) => if Strip(seg) == [] then [] else [BSU + Strip(seg) + ESU]
    case Raw(seg) => if seg == [] then [] else [seg]
    case Last(head, tail) =>
      if Strip(head) == [] then (if tail == [] then [] else [tail])
      else [BSU + Strip(head) + ESU + tail]
  }

  function AllBytes(pieces: seq<Piece>): seq<Byte> {
    if pieces == [] then [] else AllBytes(pieces[..|pieces| - 1]) + PieceBytes(pieces[|pieces| - 1])
  }

  function AllWrites(pieces: seq<Piece>): seq<seq<Byte>> {
    if pieces == [] then [] else AllWrites(pieces[..|pieces| - 1]) + Written(pieces[|pieces| - 1])
  }

  lemma AllAppend(pieces: seq<Piece>, piece: Piece)
    ensures AllBytes(pieces + [piece]) == AllBytes(pieces) + PieceBytes(piece)
    ensures AllWrites(pieces + [piece]) == AllWrites(pieces) + Written(piece)
  {
    assert (pieces + [piece])[..|pieces|] == pieces;
  }

  ghost predicate Conserved(p: State) {
    p.input == AllBytes(p.pieces) + p.buf && p.writes == AllWrites(p.pieces)
  }

  lemma WrapIsWrite(head: seq<Byte>, tail: seq<Byte>)
    ensures WriteOf(WrapOf(head)) == Written(Wrapped(head))
    ensures WriteOf(WrapOf(head) + tail) == Written(Last(head, tail))
  {
    assert [] + tail == tail;
  }

  lemma FlushConserves(cfg: Config, p: State, eof: bool)
    requires Conserved(p)
    ensures Conserved(FlushStep(cfg, p, eof))
  {
    hide Strip, AllBytes, AllWrites, WrapOf, WriteOf, Written;
    if p.buf == [] {
      return;
    }
    var split := SplitOf(p.tracker, |p.buf|);
    var head, tail := p.buf[..split], p.buf[split..];
    assert p.buf + [] == p.buf == head + tail;
    if !cfg.syncWrap || |p.buf| - split > MAX_TAIL_HOLD {
      AllAppend(p.pieces, Raw(p.buf));
      assert Written(Raw(p.buf)) == [p.buf] by { RawIsWrite(p.buf); }
      assert AllBytes(p.pieces) + p.buf + [] == AllBytes(p.pieces) + p.buf;
    } else if eof {
      WrapIsWrite(head, tail);
      AllAppend(p.pieces, Last(head, tail));
      assert AllBytes(p.pieces) + (head + tail) + [] == AllBytes(p.pieces) + p.buf;
    } else {
      WrapIsWrite(head, tail);
      AllAppend(p.pieces, Wrapped(head));
      assert AllBytes(p.pieces) + head + tail == AllBytes(p.pieces) + p.buf;
    }
  }

  lemma RawIsWrite(seg: seq<Byte>)
    requires seg != []
    ensures Written(Raw(seg)) == [seg]
  {
  }

  lemma StepConserves(cfg: Config, p: State, ev: Event)
    requires Conserved(p)
    ensures Conserved(Step(cfg, p, ev))
  {
    hide FlushStep, AllBytes, AllWrites, TrackMore, Stamped;
    match ev
    case Read(data, held) =>
      assert p.input + data == AllBytes(p.pieces) + (p.buf + data);
      assert Conserved(Appended(cfg, p, data));
      FlushConserves(cfg, Appended(cfg, p, data), false);
    case IdleFires => FlushConserves(cfg, p.(idle := Off), false);
    case MaxHoldFires => FlushConserves(cfg, p.(maxHold := Off), false);
    case Eof => FlushConserves(cfg, p, true);
    case Pass(d) =>
  }

  /** On every run the bytes read are cut into consecutive pieces, none skipped or repeated;
      the writes are those of the pieces, in order; after the end nothing is held back. */
  lemma {:induction false} RunConserves(cfg: Config, evs: seq<Event>)
    ensures Conserved(Run(cfg, evs))
    ensures Run(cfg, evs).ended ==> Run(cfg, evs).input == AllBytes(Run(cfg, evs).pieces)
    decreases |evs|
  {
    hide Step;
    if evs != [] {
      RunConserves(cfg, evs[..|evs| - 1]);
      StepConserves(cfg, Run(cfg, evs[..|evs| - 1]), evs[|evs| - 1]);
    }
    RunKeeps(cfg, evs);
  }

  /** Without wrapping every piece is raw. */
  ghost predicate AllRaw(pieces: seq<Piece>) {
    forall i | 0 <= i < |pieces| :: pieces[i].Raw?
  }

  lemma {:induction false} RunRaw(cfg: Config, evs: seq<Event>)
    requires !cfg.syncWrap
    ensures AllRaw(Run(cfg, evs).pieces)
    decreases |evs|
  {
    if evs != [] {
      RunRaw(cfg, evs[..|evs| - 1]);
    }
  }

  lemma {:induction false} RawWrites(pieces: seq<Piece>)
    requires AllRaw(pieces)
    ensures Flatten(AllWrites(pieces)) == AllBytes(pieces)
    decreases |pieces|
  {
    if pieces != [] {
      var n := |pieces| - 1;
      RawWrites(pieces[..n]);
      FlattenAppend(AllWrites(pieces[..n]), Written(pieces[n]));
      assert Flatten([pieces[n].seg]) == pieces[n].seg + Flatten([]);
    }
  }

  /** With wrapping off the pump is the identity on bytes. */
  lemma PlainPumpIsIdentity(cfg: Config, evs: seq<Event>)
    requires !cfg.syncWrap
    ensures Flatten(Run(cfg, evs).writes) + Run(cfg, evs).buf == Run(cfg, evs).input
  {
    hide Run, AllWrites, AllBytes;
    RunConserves(cfg, evs);
    RunRaw(cfg, evs);
    RawWrites(Run(cfg, evs).pieces);
  }

  // ---- The payload does not depend on where the cuts fell ----

  /** A piece without the tail that the end of the stream forces out behind it. */
  function HeadOf(piece: Piece): seq<Byte> {
    match piece case Wrapped(seg) => seg case Raw(seg) => seg case Last(head, tail) => head
  }

  /** What was wrapped, with the markers gone. */
  function Payload(pieces: seq<Piece>): seq<Byte> {
    if pieces == [] then []
    else
      var last := pieces[|pieces| - 1];
      Payload(pieces[..|pieces| - 1]) + Strip(HeadOf(last))
  }

  /** What followed the last wrapped write at the end of the stream. */
  function RawEnd(pieces: seq<Piece>): seq<Byte> {
    if pieces != [] && pieces[|pieces| - 1].Last? then pieces[|pieces| - 1].tail else []
  }

  /** No prefix of the stream ends in an unfinished sequence too long to hold back. */
  ghost predicate TailsShort(data: seq<Byte>) {
    forall n | 0 <= n <= |data| :: n - Split(data[..n]) <= MAX_TAIL_HOLD
  }

  /** No sequence was so long that its beginning had to be let through as it is. */
  ghost predicate NoneRaw(pieces: seq<Piece>) {
    forall i | 0 <= i < |pieces| :: !pieces[i].Raw?
  }

  /** Wherever a flush may cut the stream, nothing is unfinished there. */
  ghost predicate AlwaysClean(data: seq<Byte>) {
    forall n | 0 <= n <= |data| :: CleanAfter(data, n)
  }

  /** The stream up to the end of every write leaves no sequence or rune unfinished, so no
      marker stands inside one. */
  ghost predicate CutsClean(pieces: seq<Piece>) {
    forall i | 0 <= i < |pieces| :: CleanPiece(pieces, i)
  }

  ghost predicate CleanPiece(pieces: seq<Piece>, i: nat)
    requires i < |pieces|
  {
    Tracked(AllBytes(pieces[..i]) + HeadOf(pieces[i])) == FRESH
  }

  /** What the cuts so far, the last of them at `c`, owe to the stream. */
  ghost predicate CutsMeet(data: seq<Byte>, pieces: seq<Piece>, c: nat) {
    && c <= |data|
    && (MarkersSeen(data) ==> CutClear(data, c) && Payload(pieces) == Strip(data[..c]))
    && (AlwaysClean(data) ==> CutsClean(pieces))
  }

  /** The pump stands at `c` in the stream: everything before is emitted, the rest of the
      input is in the buffer, and the tracker has forgotten nothing that matters. */
  ghost predicate At(data: seq<Byte>, p: State, c: nat) {
    && c <= |p.input| && p.input <= data
    && p.buf == p.input[c..] && AllBytes(p.pieces) == p.input[..c]
    && Detached(p.input, c) && p.tracker == Tracked(p.buf)
    && NoneRaw(p.pieces) && CutsMeet(data, p.pieces, c)
  }

  lemma PayloadAppend(pieces: seq<Piece>, piece: Piece)
    ensures (pieces + [piece])[..|pieces|] == pieces
    ensures Payload(pieces + [piece]) == Payload(pieces) + Strip(HeadOf(piece))
  {
    assert (pieces + [piece])[..|pieces|] == pieces;
  }

  lemma CleanAppend(pieces: seq<Piece>, piece: Piece)
    requires CutsClean(pieces) && Tracked(AllBytes(pieces) + HeadOf(piece)) == FRESH
    ensures CutsClean(pieces + [piece])
  {
    hide AllBytes, Tracked, HeadOf;
    forall i | 0 <= i < |pieces| + 1
      ensures CleanPiece(pieces + [piece], i)
    {
      if i < |pieces| {
        assert CleanPiece(pieces, i) && (pieces + [piece])[..i] == pieces[..i];
      } else {
        assert (pieces + [piece])[..i] == pieces;
      }
    }
  }

  lemma CutClearPrefix(data: seq<Byte>, c: nat, n: nat)
    requires CutClear(data, c) && c <= n <= |data|
    ensures CutClear(data[..n], c)
  {
    forall i | 0 <= i < c < i + 8
      ensures !MarkerAt(data[..n], i)
    {
      if i + 8 <= n {
        MarkerInFront(data[..n], data[n..], i);
        assert data[..n] + data[n..] == data;
      }
      assert !MarkerAt(data, i);
    }
  }

  /** The tail of the buffer is the tail of the stream so far. */
  lemma SameCut(input: seq<Byte>, c: nat)
    requires Detached(input, c)
    ensures var k := Split(input[c..]); var d := c + k;
      && k <= |input[c..]| && d == Split(input) <= |input|
      && input[d..] == input[c..][k..] && input[..d] == input[..c] + input[c..][..k]
      && Detached(input, d)
  {
    hide Tracked;
    TrackedOk(input);
    TrackedOk(input[c..]);
    RebaseIsFresh(input);
  }

  /** A flush that cuts at `Split` keeps what the cuts owe to the stream. */
  lemma NextMeets(data: seq<Byte>, p: State, c: nat, piece: Piece)
    requires At(data, p, c)
    requires Split(p.buf) <= |p.buf| && HeadOf(piece) == p.buf[..Split(p.buf)]
    ensures CutsMeet(data, p.pieces + [piece], Split(p.input)) && Split(p.input) == c + Split(p.buf) <= |p.input|
  {
    hide Strip, Tracked, MarkerAt, Payload, HeadOf, Split, CutsClean, AllBytes, CutClear;
    var n := |p.input|;
    SameCut(p.input, c);
    var d := c + Split(p.buf);
    assert data[..n] == p.input && data[..d] == p.input[..d] && data[..c] == p.input[..c];
    if MarkersSeen(data) {
      PermittedCutIsClear(data, n);
      CutClearPrefix(data, c, d);
      StripCut(data[..c], HeadOf(piece));
      PayloadAppend(p.pieces, piece);
    }
    if AlwaysClean(data) {
      assert CleanAfter(data, n);
      CleanAppend(p.pieces, piece);
    }
  }

  /** The piece a flush emits, when the tail is short enough to be held back. */
  function PieceOf(buf: seq<Byte>, eof: bool): Piece
    requires Split(buf) <= |buf|
  {
    if eof then Last(buf[..Split(buf)], buf[Split(buf)..]) else Wrapped(buf[..Split(buf)])
  }

  lemma FlushForm(cfg: Config, p: State, eof: bool)
    requires cfg.syncWrap && p.tracker == Tracked(p.buf) && p.buf != [] && |p.buf| - Split(p.buf) <= MAX_TAIL_HOLD
    ensures Split(p.buf) <= |p.buf| && FlushStep(cfg, p, eof).pieces == p.pieces + [PieceOf(p.buf, eof)]
    ensures var q := FlushStep(cfg, p, eof);
      q.buf == (if eof then [] else p.buf[Split(p.buf)..]) && q.tracker == Tracked(q.buf)
  {
    hide Tracked, Strip, WrapOf, WriteOf;
    RebaseIsFresh(p.buf);
    EmptyTracked();
  }

  lemma TailShort(data: seq<Byte>, n: nat)
    requires TailsShort(data) && n <= |data|
    ensures n - Split(data[..n]) <= MAX_TAIL_HOLD
  {
    hide Split;
  }

  lemma NonemptyFlushAt(cfg: Config, data: seq<Byte>, p: State, c: nat, eof: bool)
    requires cfg.syncWrap && TailsShort(data) && At(data, p, c) && p.buf != []
    ensures var q := FlushStep(cfg, p, eof); var d := Split(p.input);
      && c <= d <= |p.input| && NoneRaw(q.pieces) && CutsMeet(data, q.pieces, d)
      && (if eof then RawEnd(q.pieces) == p.input[d..] else At(data, q, d))
  {
    hide Split, Tracked, Detached, AllBytes, CutsMeet, TailsShort, FlushStep;
    SameCut(p.input, c);
    assert data[..|p.input|] == p.input;
    TailShort(data, |p.input|);
    FlushForm(cfg, p, eof);
    NextMeets(data, p, c, PieceOf(p.buf, eof));
    AllAppend(p.pieces, PieceOf(p.buf, eof));
  }

  lemma FlushAt(cfg: Config, data: seq<Byte>, p: State, c: nat, eof: bool)
    requires cfg.syncWrap && TailsShort(data) && At(data, p, c)
    ensures var q := FlushStep(cfg, p, eof); var d := Split(p.input);
      && c <= d <= |p.input| && NoneRaw(q.pieces) && CutsMeet(data, q.pieces, d)
      && (!eof ==> At(data, q, d))
      && (eof ==> if p.buf == [] then d == |p.input| else RawEnd(q.pieces) == p.input[d..])
  {
    hide Tracked, AllBytes, CutsMeet, TailsShort;
    if p.buf == [] {
      SameCut(p.input, c);
    } else {
      NonemptyFlushAt(cfg, data, p, c, eof);
    }
  }

  lemma StripNothing()
    ensures Strip([]) == []
  {
  }

  lemma ReadAt(cfg: Config, data: seq<Byte>, p: State, c: nat, more: seq<Byte>)
    requires cfg.syncWrap && At(data, p, c) && p.input + more <= data
    ensures At(data, Appended(cfg, p, more), c)
  {
    hide Tracked, CutsMeet, AllBytes, TrackMore, Stamped, Detached;
    TrackMoreTracked(p.buf, more);
    DetachedAppend(p.input, c, more);
  }

  /** While the stream goes on, the pump stands somewhere in it. */
  lemma StepAt(cfg: Config, data: seq<Byte>, p: State, c: nat, ev: Event) returns (d: nat)
    requires cfg.syncWrap && TailsShort(data) && At(data, p, c)
    requires Step(cfg, p, ev).input <= data && !Step(cfg, p, ev).ended
    ensures At(data, Step(cfg, p, ev), d)
  {
    hide FlushStep, Tracked, CutsMeet, TailsShort, Detached, AllBytes, TrackMore, Stamped;
    d := c;
    match ev
    case Read(more, held) =>
      ReadAt(cfg, data, p, c, more);
      var q := Appended(cfg, p, more);
      if cfg.maxBuffer > 0 && |q.buf| >= cfg.maxBuffer {
        FlushAt(cfg, data, q, c, false);
        d := Split(q.input);
      }
    case IdleFires =>
      if p.idle.Due? {
        FlushAt(cfg, data, p.(idle := Off), c, false);
        d := Split(p.input);
      }
    case MaxHoldFires =>
      if p.maxHold.Due? {
        FlushAt(cfg, data, p.(maxHold := Off), c, false);
        d := Split(p.input);
      }
    case Eof =>
    case Pass(_) =>
  }

  lemma InputGrows(cfg: Config, p: State, ev: Event)
    ensures p.input <= Step(cfg, p, ev).input && (p.ended ==> Step(cfg, p, ev) == p)
  {
    hide FlushStep, Stamped, TrackMore;
  }

  /** The finished run: everything wrapped up to the last unfinished sequence, which
      follows raw. */
  ghost predicate Preserved(data: seq<Byte>, p: State) {
    NoneRaw(p.pieces) && Payload(p.pieces) == Strip(data[..Split(data)]) && RawEnd(p.pieces) == data[Split(data)..]
  }

  ghost predicate Finished(data: seq<Byte>, p: State) {
    && Split(data) <= |data| && NoneRaw(p.pieces)
    && RawEnd(p.pieces) == data[Split(data)..] && CutsMeet(data, p.pieces, Split(data))
  }

  lemma EofFinishes(cfg: Config, data: seq<Byte>, p: State, c: nat)
    requires cfg.syncWrap && TailsShort(data) && At(data, p, c) && p.input == data
    requires !p.ended && NoLast(p.pieces)
    ensures Finished(data, Step(cfg, p, Eof))
  {
    hide Tracked, CutsMeet, TailsShort, Detached, AllBytes;
    FlushAt(cfg, data, p, c, true);
    RebaseIsFresh(data);
    assert data[|data|..] == [];
  }

  /** Only the end of the stream makes a last piece. */
  ghost predicate NoLast(pieces: seq<Piece>) {
    pieces == [] || !pieces[|pieces| - 1].Last?
  }

  lemma StepNoLast(cfg: Config, p: State, ev: Event)
    requires NoLast(p.pieces) && !Step(cfg, p, ev).ended
    ensures NoLast(Step(cfg, p, ev).pieces)
  {
    hide TrackMore, Stamped, Strip;
  }

  lemma {:induction false} RunAt(cfg: Config, evs: seq<Event>, data: seq<Byte>)
    requires cfg.syncWrap && TailsShort(data) && Run(cfg, evs).input <= data
    ensures !Run(cfg, evs).ended ==> NoLast(Run(cfg, evs).pieces)
                                     && exists c: nat :: At(data, Run(cfg, evs), c)
    ensures Run(cfg, evs).ended && Run(cfg, evs).input == data ==> Finished(data, Run(cfg, evs))
    decreases |evs|
  {
    hide Step, At, Finished, TailsShort, NoLast;
    if evs == [] {
      StartAt(data);
      return;
    }
    var n := |evs| - 1;
    var p := Run(cfg, evs[..n]);
    InputGrows(cfg, p, evs[n]);
    RunAt(cfg, evs[..n], data);
    if p.ended {
      return;
    }
    var c: nat :| At(data, p, c);
    if evs[n] == Eof {
      EofInput(cfg, p);
      if p.input == data {
        EofFinishes(cfg, data, p, c);
      }
    } else {
      OnlyEofEnds(cfg, p, evs[n]);
      StepNoLast(cfg, p, evs[n]);
      var d := StepAt(cfg, data, p, c, evs[n]);
    }
  }

  lemma StartAt(data: seq<Byte>)
    ensures At(data, START, 0) && NoLast(START.pieces)
  {
    StripNothing();
    EmptyTracked();
    assert data[..0] == [];
  }

  lemma EofInput(cfg: Config, p: State)
    requires !p.ended
    ensures Step(cfg, p, Eof).input == p.input && Step(cfg, p, Eof).ended
  {
    hide FlushStep;
  }

  lemma OnlyEofEnds(cfg: Config, p: State, ev: Event)
    requires !p.ended && ev != Eof
    ensures !Step(cfg, p, ev).ended
  {
    hide FlushStep, Stamped, TrackMore;
  }

  /** For every chunking and every interleaving of timers: what is wrapped is the stream up
      to its last unfinished sequence without its markers, and that sequence follows raw. */
  lemma MeaningPreserved(cfg: Config, evs: seq<Event>)
    requires cfg.syncWrap && Run(cfg, evs).ended
    requires MarkersSeen(Run(cfg, evs).input) && TailsShort(Run(cfg, evs).input)
    ensures var data := Run(cfg, evs).input; Split(data) <= |data| && Preserved(data, Run(cfg, evs))
  {
    hide Run, MarkersSeen, TailsShort;
    RunAt(cfg, evs, Run(cfg, evs).input);
  }

  // ---- ... and that is exact ----

  /** The reader's buffer: no read is longer, and none is empty. */
  const READ_SIZE: nat := 8192

  /** What can happen now: a timer fires once it is due, and time does not pass a due timer. */
  predicate Enabled(p: State, ev: Event) {
    match ev
    case IdleFires => p.idle.Due? && p.idle.at <= p.now
    case MaxHoldFires => p.maxHold.Due? && p.maxHold.at <= p.now
    case Pass(d) => (p.idle.Due? ==> p.now + d <= p.idle.at) && (p.maxHold.Due? ==> p.now + d <= p.maxHold.at)
    case _ => true
  }

  predicate Timed(cfg: Config, evs: seq<Event>)
    decreases |evs|
  {
    evs == [] || (Timed(cfg, evs[..|evs| - 1]) && Enabled(Run(cfg, evs[..|evs| - 1]), evs[|evs| - 1]))
  }

  /** A run the code can make: reads that fit the reader's buffer, and timers in time. */
  predicate Real(cfg: Config, evs: seq<Event>) {
    Timed(cfg, evs) && forall i | 0 <= i < |evs| && evs[i].Read? :: 1 <= |evs[i].data| <= READ_SIZE
  }

  /** The bytes in as few reads as possible. */
  function ReadsOf(bs: seq<Byte>): seq<Event>
    decreases |bs|
  {
    if bs == [] then []
    else if |bs| <= READ_SIZE then [Read(bs, false)]
    else [Read(bs[..READ_SIZE], false)] + ReadsOf(bs[READ_SIZE..])
  }

  lemma RunOneMore(cfg: Config, evs: seq<Event>, ev: Event)
    ensures Run(cfg, evs + [ev]) == Step(cfg, Run(cfg, evs), ev)
    ensures Timed(cfg, evs) && Enabled(Run(cfg, evs), ev) ==> Timed(cfg, evs + [ev])
    ensures Real(cfg, evs) && Enabled(Run(cfg, evs), ev) && (ev.Read? ==> 1 <= |ev.data| <= READ_SIZE) ==>
      Real(cfg, evs + [ev])
  {
    assert (evs + [ev])[..|evs|] == evs;
    hide Step, Enabled;
  }

  /** Behind a read that stays below the buffer limit, and unless MaxHold comes first, the idle
      timer fires exactly after the hold time if the hold mode is active and has a time, and
      exactly after the idle time otherwise. */
  lemma IdleFiresAfterQuiet(cfg: Config, evs: seq<Event>, data: seq<Byte>, held: bool, d: nat)
    requires Timed(cfg, evs) && !Run(cfg, evs).ended
    requires cfg.maxBuffer == 0 || |Run(cfg, evs).buf| + |data| < cfg.maxBuffer
    requires var q := Run(cfg, evs + [Read(data, held)]);
      q.maxHold.Due? ==> q.maxHold.at >= q.now + cfg.hold && q.maxHold.at >= q.now + cfg.idle
    ensures Timed(cfg, evs + [Read(data, held)] + [Pass(d)] + [IdleFires])
       <==> d == if held && cfg.hold > 0 then cfg.hold else cfg.idle
  {
    hide Run, FlushStep, Stamped, TrackMore;
    RunOneMore(cfg, evs, Read(data, held));
    RunOneMore(cfg, evs + [Read(data, held)], Pass(d));
    TimedOneMore(cfg, evs, Read(data, held));
    TimedOneMore(cfg, evs + [Read(data, held)], Pass(d));
    TimedOneMore(cfg, evs + [Read(data, held)] + [Pass(d)], IdleFires);
    hide Timed;
  }

  lemma TimedOneMore(cfg: Config, evs: seq<Event>, ev: Event)
    ensures Timed(cfg, evs + [ev]) <==> Timed(cfg, evs) && Enabled(Run(cfg, evs), ev)
  {
    assert (evs + [ev])[..|evs|] == evs;
    hide Run, Enabled;
  }

  const PLAIN_WRAP := Config(1, 0, 0, 0, true)

  /** After some reads: the bytes are in the buffer, and the idle timer runs. */
  ghost predicate AfterReads(p: State, q: State, bs: seq<Byte>) {
    && q.buf == p.buf + bs && q.input == p.input + bs && q.pieces == p.pieces
    && q.tracker == Tracked(q.buf) && q.now == p.now && !q.ended
    && q.maxHold == p.maxHold && (if bs == [] then q.idle == p.idle else q.idle == Due(p.now + 1))
  }

  lemma OneRead(p: State, bs: seq<Byte>)
    requires !p.ended && p.tracker == Tracked(p.buf) && bs != []
    ensures AfterReads(p, Step(PLAIN_WRAP, p, Read(bs, false)), bs)
  {
    hide Tracked, TrackMore, Stamped;
    TrackMoreTracked(p.buf, bs);
  }

  lemma {:induction false} ReadsRun(evs: seq<Event>, bs: seq<Byte>)
    requires Real(PLAIN_WRAP, evs) && !Run(PLAIN_WRAP, evs).ended
    requires Run(PLAIN_WRAP, evs).tracker == Tracked(Run(PLAIN_WRAP, evs).buf)
    ensures Real(PLAIN_WRAP, evs + ReadsOf(bs))
    ensures AfterReads(Run(PLAIN_WRAP, evs), Run(PLAIN_WRAP, evs + ReadsOf(bs)), bs)
    decreases |bs|
  {
    hide Run, Step, Real, Tracked;
    var p := Run(PLAIN_WRAP, evs);
    if bs == [] {
      assert evs + [] == evs;
      assert p.buf + [] == p.buf && p.input + [] == p.input;
    } else if |bs| <= READ_SIZE {
      RunOneMore(PLAIN_WRAP, evs, Read(bs, false));
      OneRead(p, bs);
    } else {
      var a, b := bs[..READ_SIZE], bs[READ_SIZE..];
      RunOneMore(PLAIN_WRAP, evs, Read(a, false));
      OneRead(p, a);
      ReadsRun(evs + [Read(a, false)], b);
      assert evs + [Read(a, false)] + ReadsOf(b) == evs + ([Read(a, false)] + ReadsOf(b));
      assert a + b == bs && p.buf + a + b == p.buf + bs && p.input + a + b == p.input + bs;
    }
  }

  /** Two parts of a stream, each in reads of the reader's size, and the idle timer between
      them. */
  function TwoParts(a: seq<Byte>, b: seq<Byte>): seq<Event> {
    FirstPart(a) + ReadsOf(b) + [Eof]
  }

  function FirstPart(a: seq<Byte>): seq<Event> {
    [] + ReadsOf(a) + [Pass(1)] + [IdleFires]
  }

  /** The pump with `a` in its buffer when the idle timer fires, and after its flush. */
  lemma FirstPartRun(a: seq<Byte>) returns (p: State)
    requires a != []
    ensures p.buf == a && p.tracker == Tracked(a) && p.input == a && p.pieces == [] && !p.ended
    ensures Real(PLAIN_WRAP, FirstPart(a)) && Run(PLAIN_WRAP, FirstPart(a)) == FlushStep(PLAIN_WRAP, p, false)
  {
    hide Tracked, ReadsOf, Step, Run, Real, Enabled;
    NothingRun();
    ReadsRun([], a);
    var evs := [] + ReadsOf(a);
    var q := Run(PLAIN_WRAP, evs);
    assert [] + a == a;
    IdleAfterReads(q);
    RunOneMore(PLAIN_WRAP, evs, Pass(1));
    RunOneMore(PLAIN_WRAP, evs + [Pass(1)], IdleFires);
    p := q.(now := q.now + 1, idle := Off);
  }

  lemma NothingRun()
    ensures Run(PLAIN_WRAP, []) == START && Real(PLAIN_WRAP, []) && Tracked([]) == FRESH
  {
  }

  /** The idle time passes, and the timer fires. */
  lemma IdleAfterReads(q: State)
    requires !q.ended && q.idle == Due(q.now + 1) && q.maxHold == Off
    ensures var r := Step(PLAIN_WRAP, q, Pass(1));
      && Enabled(q, Pass(1)) && Enabled(r, IdleFires)
      && Step(PLAIN_WRAP, r, IdleFires) == FlushStep(PLAIN_WRAP, q.(now := q.now + 1, idle := Off), false)
  {
    hide FlushStep;
  }

  /** The second part and the end of the stream. */
  lemma SecondPartRun(a: seq<Byte>, b: seq<Byte>) returns (q: State)
    requires Real(PLAIN_WRAP, FirstPart(a))
    requires var p := Run(PLAIN_WRAP, FirstPart(a)); p.tracker == Tracked(p.buf) && p.input == a && !p.ended
    ensures q.buf == Run(PLAIN_WRAP, FirstPart(a)).buf + b && q.tracker == Tracked(q.buf)
    ensures q.input == a + b && !q.ended
    ensures q.pieces == Run(PLAIN_WRAP, FirstPart(a)).pieces && Real(PLAIN_WRAP, TwoParts(a, b))
    ensures Run(PLAIN_WRAP, TwoParts(a, b)) == FlushStep(PLAIN_WRAP, q, true).(ended := true)
  {
    hide Tracked, ReadsOf, FlushStep, FirstPart, Run, Real;
    ReadsRun(FirstPart(a), b);
    q := Run(PLAIN_WRAP, FirstPart(a) + ReadsOf(b));
    RunOneMore(PLAIN_WRAP, FirstPart(a) + ReadsOf(b), Eof);
  }

  /** A first part that ends a sequence is wrapped on its own; the rest goes at the end. */
  lemma TwoPartsRun(a: seq<Byte>, b: seq<Byte>)
    requires a != [] && b != [] && Tracked(a) == FRESH && |b| - Split(b) <= MAX_TAIL_HOLD
    ensures Real(PLAIN_WRAP, TwoParts(a, b))
    ensures Split(b) <= |b|
    ensures var p := Run(PLAIN_WRAP, TwoParts(a, b));
      && p.ended && p.input == a + b && p.pieces == [Wrapped(a), Last(b[..Split(b)], b[Split(b)..])]
  {
    hide Tracked, Strip, WrapOf, WriteOf, Run, Real, TwoParts, FirstPart;
    RebaseIsFresh(b);
    var p := FirstPartRun(a);
    assert a[..|a|] == a && a[|a|..] == [];
    assert Run(PLAIN_WRAP, FirstPart(a)).pieces == [Wrapped(a)];
    EmptyTracked();
    var q := SecondPartRun(a, b);
    assert [] + b == b;
  }

  /** After an escape that ended a control sequence, the rest of a marker is plain text. */
  lemma {:induction false} MarkerAsText(data: seq<Byte>, i: nat, j: nat)
    requires MarkerAt(data, i) && Tracked(data[..i]).state == Csi && 1 <= j <= 8
    ensures Tracked(data[..i + j]) == FRESH
    decreases j
  {
    var before := data[..i + j - 1];
    MarkerBytes(data, i);
    assert data[..i + j] == before + [data[i + j - 1]];
    TrackedAppend(before, data[i + j - 1]);
    TrackedOk(data[..i]);
    if j > 1 {
      MarkerAsText(data, i, j - 1);
    }
    hide Tracked;
  }

  /** The whole of an unseen marker is finished text, and a cut after its escape is permitted. */
  lemma UnseenMarkerFinished(data: seq<Byte>, i: nat)
    requires MarkerAt(data, i) && Tracked(data[..i]).state == Csi
    ensures i + 8 <= Split(data) <= |data| && Tracked(data[..i + 1]) == FRESH
    ensures Split(data[i + 1..]) <= |data| - (i + 1) && Split(data) == i + 1 + Split(data[i + 1..])
  {
    hide Tracked;
    var a, b := data[..i + 1], data[i + 1..];
    assert a + b == data && data[|a|..] == b;
    MarkerAsText(data, i, 1);
    MarkerAsText(data, i, 8);
    DetachedAtGround(a);
    DetachedAppend(a, |a|, b);
    RebaseIsFresh(b);
    RebaseIsFresh(data);
    TrackedOk(b);
    assert data[..i + 8] + data[i + 8..] == data;
    SplitGrows(data[..i + 8], data[i + 8..]);
  }

  lemma TakeTwice(data: seq<Byte>, m: nat, n: nat)
    requires m + n <= |data|
    ensures data[..m] + data[m..][..n] == data[..m + n]
  {
  }

  /** A marker the tracker does not see can be cut through. */
  lemma UnseenMarkerSplits(data: seq<Byte>, i: nat)
    requires MarkerAt(data, i) && Tracked(data[..i]).state == Csi && TailsShort(data)
    ensures Real(PLAIN_WRAP, TwoParts(data[..i + 1], data[i + 1..]))
    ensures var p := Run(PLAIN_WRAP, TwoParts(data[..i + 1], data[i + 1..]));
      p.ended && p.input == data && Split(data) <= |data| && !Preserved(data, p)
  {
    hide Track;
    UnseenMarkerFinished(data, i);
    TailShort(data, |data|);
    assert data[..|data|] == data;
    hide Tracked, Strip, MarkerAt, Run, Split, TailsShort, Payload, Real, TwoParts, NoneRaw, RawEnd;
    var a, b := data[..i + 1], data[i + 1..];
    assert a + b == data;
    TwoPartsRun(a, b);
    SplitMarkerPayload(data, i);
  }

  /** Both halves of the cut marker stay in. */
  lemma SplitMarkerPayload(data: seq<Byte>, i: nat)
    requires MarkerAt(data, i) && i + 8 <= Split(data) <= |data|
    requires Split(data[i + 1..]) <= |data| - (i + 1) && Split(data) == i + 1 + Split(data[i + 1..])
    ensures var b := data[i + 1..];
      Payload([Wrapped(data[..i + 1]), Last(b[..Split(b)], b[Split(b)..])]) != Strip(data[..Split(data)])
  {
    hide Tracked, Strip, MarkerAt, Split, Payload;
    var k := Split(data);
    var a, b := data[..i + 1], data[i + 1..];
    var head := b[..Split(b)];
    TakeTwice(data, i + 1, Split(b));
    assert data[..k] + data[k..] == data;
    MarkerInFront(data[..k], data[k..], i);
    StripSplit(a, head, i);
    PayloadOfTwo(a, head, b[Split(b)..]);
  }

  lemma PayloadOfTwo(a: seq<Byte>, head: seq<Byte>, tail: seq<Byte>)
    ensures Payload([Wrapped(a), Last(head, tail)]) == Strip(a) + Strip(head)
  {
    hide Strip;
    var one, two := [Wrapped(a)], [Wrapped(a), Last(head, tail)];
    assert two[..1] == one && one[..0] == [];
    assert Payload(one) == [] + Strip(a) == Strip(a);
  }

  // ---- Overlong sequences ----

  lemma PiecesGrow(cfg: Config, p: State, ev: Event)
    ensures p.pieces <= Step(cfg, p, ev).pieces
  {
    hide Strip, Stamped, TrackMore, Rebased, WrapOf, WriteOf;
  }

  /** What the first part emitted stays emitted. */
  lemma FirstPartStays(a: seq<Byte>, b: seq<Byte>)
    requires Real(PLAIN_WRAP, FirstPart(a))
    requires var p := Run(PLAIN_WRAP, FirstPart(a)); p.tracker == Tracked(p.buf) && p.input == a && !p.ended
    ensures var p := Run(PLAIN_WRAP, TwoParts(a, b));
      && Real(PLAIN_WRAP, TwoParts(a, b)) && p.ended && p.input == a + b
      && Run(PLAIN_WRAP, FirstPart(a)).pieces <= p.pieces
  {
    hide Tracked, FlushStep, Run, Real, TwoParts, FirstPart;
    var q := SecondPartRun(a, b);
    PiecesGrow(PLAIN_WRAP, q, Eof);
    assert Step(PLAIN_WRAP, q, Eof) == Run(PLAIN_WRAP, TwoParts(a, b));
  }

  /** A beginning that ends in an overlong sequence, flushed by the idle timer, goes out raw. */
  lemma OverlongGoesRaw(a: seq<Byte>, b: seq<Byte>)
    requires |a| - Split(a) > MAX_TAIL_HOLD
    ensures Real(PLAIN_WRAP, TwoParts(a, b))
    ensures var p := Run(PLAIN_WRAP, TwoParts(a, b));
      p.ended && p.input == a + b && p.pieces != [] && p.pieces[0] == Raw(a)
  {
    hide Tracked, Strip, WrapOf, WriteOf, Run, Real, TwoParts, FirstPart;
    RebaseIsFresh(a);
    EmptyTracked();
    var p := FirstPartRun(a);
    assert Run(PLAIN_WRAP, FirstPart(a)).pieces == [Raw(a)];
    FirstPartStays(a, b);
    assert Run(PLAIN_WRAP, FirstPart(a)).pieces[0] == Raw(a);
  }

  lemma OverlongIsLost(data: seq<Byte>, n: nat)
    requires n <= |data| && n - Split(data[..n]) > MAX_TAIL_HOLD && Split(data) <= |data|
    ensures Real(PLAIN_WRAP, TwoParts(data[..n], data[n..]))
    ensures var p := Run(PLAIN_WRAP, TwoParts(data[..n], data[n..]));
      p.ended && p.input == data && !Preserved(data, p) && !CutsClean(p.pieces)
  {
    hide Run, Real, TwoParts, Tracked, Payload;
    OverlongGoesRaw(data[..n], data[n..]);
    FirstUnclean(Run(PLAIN_WRAP, TwoParts(data[..n], data[n..])).pieces, data[..n]);
    assert data[..n] + data[n..] == data;
  }

  /** A finished run over `data` that the code can make. */
  ghost predicate RunsOver(cfg: Config, evs: seq<Event>, data: seq<Byte>) {
    cfg.syncWrap && Real(cfg, evs) && Run(cfg, evs).ended && Run(cfg, evs).input == data
  }

  /** All runs over `data` that the code can make agree on the meaning, and wrap all of it,
      exactly if no marker begins where the tracker takes its escape for the end of another
      control sequence and no sequence is too long to be held back. */
  lemma MeaningIsExact(data: seq<Byte>)
    ensures Split(data) <= |data|
    ensures MarkersSeen(data) && TailsShort(data) <==>
      forall cfg: Config, evs: seq<Event> | RunsOver(cfg, evs, data) :: Preserved(data, Run(cfg, evs))
  {
    hide Run, Preserved, TailsShort, Real, TwoParts;
    RebaseIsFresh(data);
    if !TailsShort(data) {
      var n := LongTail(data);
      OverlongIsLost(data, n);
      assert RunsOver(PLAIN_WRAP, TwoParts(data[..n], data[n..]), data);
    } else if MarkersSeen(data) {
      forall cfg: Config, evs: seq<Event> | RunsOver(cfg, evs, data)
        ensures Preserved(data, Run(cfg, evs))
      {
        MeaningPreserved(cfg, evs);
      }
    } else {
      var i :| 0 <= i < |data| && MarkerAt(data, i) && Tracked(data[..i]).state == Csi;
      UnseenMarkerSplits(data, i);
      assert RunsOver(PLAIN_WRAP, TwoParts(data[..i + 1], data[i + 1..]), data);
    }
  }

  lemma LongTail(data: seq<Byte>) returns (n: nat)
    requires !TailsShort(data)
    ensures n <= |data| && n - Split(data[..n]) > MAX_TAIL_HOLD
  {
    n :| n <= |data| && n - Split(data[..n]) > MAX_TAIL_HOLD;
  }

  // ---- No marker inside a sequence, exactly ----

  /** A first piece that ends inside a sequence is not clean. */
  lemma FirstUnclean(pieces: seq<Piece>, head: seq<Byte>)
    requires pieces != [] && HeadOf(pieces[0]) == head && Tracked(head) != FRESH
    ensures !CutsClean(pieces)
  {
    hide Tracked, HeadOf;
    assert pieces[..0] == [] && [] + head == head;
    assert !CleanPiece(pieces, 0);
  }

  /** When the idle timer fires right behind a byte that begins a sequence or rune inside
      another, the unfinished one is wrapped, and the end marker stands inside it. */
  lemma RestartIsCut(data: seq<Byte>, n: nat)
    requires Restarts(data, n)
    ensures Tracked(data[..n]) != FRESH && Real(PLAIN_WRAP, FirstPart(data[..n + 1]))
    ensures Run(PLAIN_WRAP, FirstPart(data[..n + 1])).pieces == [Wrapped(data[..n])]
    ensures var p := Run(PLAIN_WRAP, TwoParts(data[..n + 1], data[n + 1..]));
      && Real(PLAIN_WRAP, TwoParts(data[..n + 1], data[n + 1..])) && p.ended && p.input == data
      && !CutsClean(p.pieces)
  {
    hide Tracked, Strip, WrapOf, WriteOf, Run, Real, TwoParts, FirstPart, CutsClean;
    var a, b := data[..n + 1], data[n + 1..];
    RestartCuts(data, n);
    assert |a| == n + 1 && a[..n] == data[..n] && a + b == data;
    RebaseIsFresh(a);
    var p := FirstPartRun(a);
    assert Run(PLAIN_WRAP, FirstPart(a)).pieces == [Wrapped(data[..n])];
    FirstPartStays(a, b);
    assert Run(PLAIN_WRAP, FirstPart(a)).pieces[0] == Wrapped(data[..n]);
    FirstUnclean(Run(PLAIN_WRAP, TwoParts(a, b)).pieces, data[..n]);
  }

  /** On all runs over `data` that the code can make, every write ends where the stream has
      nothing unfinished, exactly if no byte begins a sequence or rune inside another and no
      sequence is too long to be held back. */
  lemma CutsAreCleanExactly(data: seq<Byte>)
    ensures (forall n | 0 <= n < |data| :: !Restarts(data, n)) && TailsShort(data) <==>
      forall cfg: Config, evs: seq<Event> | RunsOver(cfg, evs, data) :: CutsClean(Run(cfg, evs).pieces)
  {
    hide Run, TailsShort, Real, TwoParts, Restarts, CutsClean, CleanAfter, Preserved;
    CleanIffNoRestart(data);
    if !TailsShort(data) {
      var n := LongTail(data);
      OverlongIsLost(data, n);
      assert RunsOver(PLAIN_WRAP, TwoParts(data[..n], data[n..]), data);
    } else if n: nat :| n < |data| && Restarts(data, n) {
      RestartIsCut(data, n);
      assert RunsOver(PLAIN_WRAP, TwoParts(data[..n + 1], data[n + 1..]), data);
    } else {
      forall cfg: Config, evs: seq<Event> | RunsOver(cfg, evs, data)
        ensures CutsClean(Run(cfg, evs).pieces)
      {
        RunAt(cfg, evs, data);
      }
    }
  }

  // ---- Latency ----

  /** Every finished byte in the buffer is stamped, and the hold deadline is in time for it. */
  ghost predicate HoldOk(cfg: Config, p: State) {
    && |p.ready| == Head(cfg, p)
    && (p.ready != [] ==> p.maxHold.Due?)
    && (p.maxHold.Due? ==> p.now <= p.maxHold.at <= p.now + cfg.maxHold)
    && (forall k | 0 <= k < |p.ready| :: p.ready[k] <= p.now && p.maxHold.at <= p.ready[k] + cfg.maxHold)
  }

  lemma FlushHolds(cfg: Config, p: State, eof: bool)
    requires Coupled(cfg, p) && (p.buf == [] ==> p.ready == [] && p.maxHold == Off)
    ensures HoldOk(cfg, FlushStep(cfg, p, eof))
  {
    hide Strip, Rebased, Tracked;
    FlushCouples(cfg, p, eof);
    RebaseIsFresh(p.buf);
    EmptyTracked();
  }

  /** With an empty buffer no timer runs and nothing is stamped. */
  ghost predicate Idle(p: State) {
    p.buf == [] ==> p.ready == [] && p.maxHold == Off && p.idle == Off
  }

  lemma ReadHolds(cfg: Config, p: State, data: seq<Byte>, held: bool)
    requires cfg.maxHold > 0 && Coupled(cfg, p) && HoldOk(cfg, p) && Idle(p) && data != []
    ensures HoldOk(cfg, ReadStep(cfg, p, data, held)) && Idle(ReadStep(cfg, p, data, held))
  {
    hide Tracked, TrackMore, FlushStep;
    var q := Appended(cfg, p, data);
    AppendCouples(cfg, p, data);
    if cfg.syncWrap {
      SplitGrows(p.buf, data);
      RebaseIsFresh(q.buf);
    }
    FlushHolds(cfg, q, false);
    FlushIdle(cfg, q, false);
  }

  lemma FlushIdle(cfg: Config, p: State, eof: bool)
    requires p.buf != []
    ensures Idle(FlushStep(cfg, p, eof))
  {
    hide Strip, WrapOf, WriteOf;
  }

  lemma StepHolds(cfg: Config, p: State, ev: Event)
    requires cfg.maxHold > 0 && Coupled(cfg, p) && HoldOk(cfg, p) && Idle(p) && Enabled(p, ev)
    requires ev.Read? ==> ev.data != []
    ensures HoldOk(cfg, Step(cfg, p, ev)) && Idle(Step(cfg, p, ev))
  {
    hide FlushStep, Tracked, ReadStep;
    if p.ended {
      return;
    }
    match ev
    case Read(data, held) => ReadHolds(cfg, p, data, held);
    case IdleFires =>
      FlushHolds(cfg, p.(idle := Off), false);
      FlushIdle(cfg, p.(idle := Off), false);
    case MaxHoldFires =>
      FlushHolds(cfg, p.(maxHold := Off), false);
      FlushIdle(cfg, p.(maxHold := Off), false);
    case Eof =>
      FlushHolds(cfg, p, true);
      EofIdle(cfg, p);
    case Pass(d) =>
  }

  lemma EofIdle(cfg: Config, p: State)
    requires Idle(p)
    ensures Idle(FlushStep(cfg, p, true))
  {
    hide Strip, WrapOf, WriteOf;
  }

  lemma {:induction false} RunHolds(cfg: Config, evs: seq<Event>)
    requires cfg.maxHold > 0 && Timed(cfg, evs)
    requires forall i | 0 <= i < |evs| :: evs[i].Read? ==> evs[i].data != []
    ensures HoldOk(cfg, Run(cfg, evs)) && Idle(Run(cfg, evs))
    decreases |evs|
  {
    hide Step, HoldOk, Idle, Coupled;
    if evs == [] {
      StartHolds(cfg);
    } else {
      var n := |evs| - 1;
      RunHolds(cfg, evs[..n]);
      RunKeeps(cfg, evs[..n]);
      StepHolds(cfg, Run(cfg, evs[..n]), evs[n]);
    }
  }

  lemma StartHolds(cfg: Config)
    ensures HoldOk(cfg, START) && Idle(START)
  {
    EmptyTracked();
  }

  /** In every state of every timed run, no byte of a finished sequence has been waiting in
      the buffer for more than MaxHold since the read that finished it. */
  lemma LatencyBound(cfg: Config, evs: seq<Event>)
    requires cfg.maxHold > 0 && Timed(cfg, evs)
    requires forall i | 0 <= i < |evs| :: evs[i].Read? ==> evs[i].data != []
    ensures var p := Run(cfg, evs);
      && |p.ready| == (if cfg.syncWrap then Split(p.buf) else |p.buf|)
      && forall k | 0 <= k < |p.ready| :: p.ready[k] <= p.now <= p.ready[k] + cfg.maxHold
  {
    hide Run, Tracked;
    RunHolds(cfg, evs);
    RunKeeps(cfg, evs);
  }
}
