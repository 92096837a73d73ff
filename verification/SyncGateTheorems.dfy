/** Main results about the synchronized-output gate: nothing is sent in the middle of a
    frame, and everything fed is shown in time. */
module SyncGateTheorems {
  import opened Bytes
  import opened ControlSequences
  import opened Terminal
  import opened TerminalTheorems
  import opened SyncGate
  import FrameRoundTrip
  import SyncWrap

  // ---- What a history must look like ----

  /** The model after the last read of the history. */
  function LastModel(first: State, log: seq<Entry>): State
    decreases |log|
  {
    if log == [] then first
    else
      var e := log[|log| - 1];
      if e.Fed? then e.model else LastModel(first, log[..|log| - 1])
  }

  /** Every read from entry `j` on left the model inside a synchronized update. */
  predicate HeldFrom(log: seq<Entry>, j: nat) {
    j < |log| && log[j].Fed? && forall k | j <= k < |log| && log[k].Fed? :: log[k].model.sync
  }

  predicate HeldSince(log: seq<Entry>, j: nat, at: int) {
    HeldFrom(log, j) && log[j].at <= at
  }

  /** Every read since `since` or before left the model inside some synchronized update (not
      necessarily the same one). */
  ghost predicate OpenSince(log: seq<Entry>, since: int) {
    exists j :: HeldSince(log, j, since)
  }

  /** A frame may be sent after `before`: it shows the model as it is, and that is outside a
      synchronized update, or every read for a second left it inside one, or the frame is
      of a read that also reported an error. */
  ghost predicate MayShow(first: State, before: seq<Entry>, at: nat, shown: State) {
    && shown == LastModel(first, before)
    && (!shown.sync
        || OpenSince(before, at - HOLD)
        || (before != [] && before[|before| - 1].Fed? && before[|before| - 1].last))
  }

  ghost predicate WellGated(first: State, log: seq<Entry>) {
    forall i {:trigger log[i]} | 0 <= i < |log| && log[i].Sent? :: MayShow(first, log[..i], log[i].at, log[i].shown)
  }

  /** Some frame sent after entry `j`, a second later at most, shows what it fed. */
  ghost predicate Shown(log: seq<Entry>, j: nat)
    requires j < |log|
  {
    exists i {:trigger log[i]} :: j < i < |log| && log[i].Sent? && log[i].at <= log[j].at + HOLD
  }

  /** The same for the clients, who get only what is sent while connections are open. */
  ghost predicate ShownToClients(log: seq<Entry>, j: nat)
    requires j < |log|
  {
    exists i {:trigger log[i]} :: j < i < |log| && log[i].Sent? && log[i].open && log[i].at <= log[j].at + HOLD
  }

  // ---- Timers are served when due ----

  ghost predicate Timely(p: Gate, ev: Event) {
    match ev
    case Pass(d) => p.valve.Due? ==> p.now + d <= p.valve.at
    case ValveFires => p.valve.Due? ==> p.valve.at <= p.now
    case _ => true
  }

  ghost predicate Timed(model: State, evs: seq<Event>)
    requires Shape(model) && ParmOk(model)
  {
    forall i {:trigger evs[i]} | 0 <= i < |evs| :: Timely(SyncGate.Run(model, evs[..i]), evs[i])
  }

  // ---- The invariant ----

  /** The fields of the gate agree with the history. */
  ghost predicate Agrees(first: State, p: Gate) {
    && p.model == LastModel(first, p.log)
    && (p.start.NotHeld? ==> p.valve.Off? && !p.model.sync)
    && (p.start.Since? ==>
          && p.model.sync && OpenSince(p.log, p.start.at)
          && p.start.at <= p.now
          && (p.valve.Due? ==> p.valve.at == p.start.at + HOLD && p.now <= p.valve.at)
          && (p.valve.Off? ==> p.start.at + HOLD <= p.now))
  }

  /** What is not shown yet is covered by the valve. */
  ghost predicate Covered(p: Gate) {
    && (forall j {:trigger p.log[j]} | 0 <= j < |p.log| && p.log[j].Fed? :: p.log[j].at <= p.now)
    && (forall j {:trigger p.log[j]} | 0 <= j < |p.log| && p.log[j].Fed? ::
          Shown(p.log, j)
          || (p.log[|p.log| - 1].Fed? && p.valve.Due? && p.valve.at <= p.log[j].at + HOLD))
    && (p.log != [] && p.log[|p.log| - 1].Fed? ==> p.valve.Due?)
  }

  /** Reads are in the order of time; while the gate runs every frame goes to the clients, and
      a frame sent under a running valve was sent when the valve was due. */
  ghost predicate Tidy(p: Gate) {
    && InOrder(p.log)
    && (!p.stopped ==> AllOpen(p.log))
    && (!p.stopped && p.log != [] && p.log[|p.log| - 1].Sent? && p.valve.Due? ==> p.valve.at <= p.now)
  }

  ghost predicate AllOpen(log: seq<Entry>) {
    forall i {:trigger log[i]} | 0 <= i < |log| && log[i].Sent? :: log[i].open
  }

  ghost predicate InOrder(log: seq<Entry>) {
    forall i, j | 0 <= i < j < |log| && log[i].Fed? && log[j].Fed? :: log[i].at <= log[j].at
  }

  // ---- One entry more ----

  lemma SendKeepsGated(first: State, log: seq<Entry>, at: nat, shown: State, open: bool)
    requires WellGated(first, log) && MayShow(first, log, at, shown)
    ensures WellGated(first, log + [Sent(at, shown, open)])
  {
    hide MayShow;
    var longer := log + [Sent(at, shown, open)];
    forall i {:trigger longer[i]} | 0 <= i < |longer| && longer[i].Sent?
      ensures MayShow(first, longer[..i], longer[i].at, longer[i].shown)
    {
      assert longer[..i] == log[..i];
      assert log[..|log|] == log;
      assert i < |log| ==> longer[i] == log[i];
    }
  }

  lemma FedKeepsGated(first: State, log: seq<Entry>, e: Entry)
    requires WellGated(first, log) && e.Fed?
    ensures WellGated(first, log + [e])
  {
    hide MayShow;
    var longer := log + [e];
    forall i {:trigger longer[i]} | 0 <= i < |longer| && longer[i].Sent?
      ensures MayShow(first, longer[..i], longer[i].at, longer[i].shown)
    {
      assert longer[..i] == log[..i] && longer[i] == log[i];
    }
  }

  lemma LastModelStep(first: State, log: seq<Entry>, e: Entry)
    ensures LastModel(first, log + [e]) == if e.Fed? then e.model else LastModel(first, log)
  {
    assert (log + [e])[..|log|] == log;
  }

  lemma HeldStays(log: seq<Entry>, e: Entry, at: int)
    requires OpenSince(log, at) && (e.Fed? ==> e.model.sync)
    ensures OpenSince(log + [e], at)
  {
    var j :| HeldSince(log, j, at);
    assert HeldSince(log + [e], j, at);
  }

  lemma HeldFromLast(log: seq<Entry>, e: Entry)
    requires e.Fed? && e.model.sync
    ensures HeldFrom(log + [e], |log|)
  {
  }

  /** A frame sent now shows everything that was waiting. */
  lemma SendShowsAll(p: Gate)
    requires forall j {:trigger p.log[j]} | 0 <= j < |p.log| && p.log[j].Fed? :: p.log[j].at <= p.now
    requires forall j {:trigger p.log[j]} | 0 <= j < |p.log| && p.log[j].Fed? ::
      Shown(p.log, j) || p.now <= p.log[j].at + HOLD
    ensures Covered(Broadcast(p))
  {
    var log := Broadcast(p).log;
    assert log[|p.log|] == Sent(p.now, p.model, !p.stopped);
    forall j {:trigger log[j]} | 0 <= j < |log| && log[j].Fed?
      ensures Shown(log, j)
    {
      assert log[j] == p.log[j];
      if Shown(p.log, j) {
        var i :| j < i < |p.log| && p.log[i].Sent? && p.log[i].at <= p.log[j].at + HOLD;
        assert log[i] == p.log[i];
      }
    }
  }

  lemma ShownStays(log: seq<Entry>, e: Entry, j: nat)
    requires j < |log| && Shown(log, j)
    ensures Shown(log + [e], j)
  {
    var i :| j < i < |log| && log[i].Sent? && log[i].at <= log[j].at + HOLD;
    assert (log + [e])[i] == log[i];
  }

  // ---- Steps keep it ----

  ghost predicate GateInv(first: State, p: Gate) {
    && WellGated(first, p.log) && Agrees(first, p) && Covered(p)
  }

  /** A frame sent at a moment that allows it, when what waits is not overdue. */
  lemma BroadcastKeeps(first: State, p: Gate)
    requires WellGated(first, p.log) && Agrees(first, p) && MayShow(first, p.log, p.now, p.model)
    requires forall j {:trigger p.log[j]} | 0 <= j < |p.log| && p.log[j].Fed? :: p.log[j].at <= p.now
    requires forall j {:trigger p.log[j]} | 0 <= j < |p.log| && p.log[j].Fed? ::
      Shown(p.log, j) || p.now <= p.log[j].at + HOLD
    ensures GateInv(first, Broadcast(p))
  {
    hide MayShow, WellGated, Shown, HeldFrom;
    var e := Sent(p.now, p.model, !p.stopped);
    SendKeepsGated(first, p.log, p.now, p.model, !p.stopped);
    SendShowsAll(p);
    LastModelStep(first, p.log, e);
    if p.start.Since? {
      HeldStays(p.log, e, p.start.at);
    }
  }

  lemma FedKeeps(first: State, p: Gate, data: seq<Byte>, m: State, error: bool)
    requires GateInv(first, p)
    ensures var q := p.(model := m, log := p.log + [Fed(p.now, data, m, error)]);
      && WellGated(first, q.log) && q.model == LastModel(first, q.log)
      && (m.sync && p.start.Since? ==> Agrees(first, q))
      && (m.sync ==> HeldSince(q.log, |p.log|, p.now))
      && (forall j {:trigger q.log[j]} | 0 <= j < |q.log| && q.log[j].Fed? :: q.log[j].at <= q.now)
      && (forall j {:trigger q.log[j]} | 0 <= j < |q.log| && q.log[j].Fed? ::
            Shown(q.log, j) || j == |p.log| || (p.valve.Due? && p.valve.at <= q.log[j].at + HOLD))
  {
    hide WellGated, MayShow, Shown, HeldFrom;
    var e := Fed(p.now, data, m, error);
    var log := p.log + [e];
    FedKeepsGated(first, p.log, e);
    LastModelStep(first, p.log, e);
    if m.sync {
      if p.start.Since? {
        HeldStays(p.log, e, p.start.at);
      }
      HeldFromLast(p.log, e);
    }
    forall j {:trigger log[j]} | 0 <= j < |p.log| && log[j].Fed?
      ensures Shown(log, j) || (p.valve.Due? && p.valve.at <= log[j].at + HOLD)
    {
      assert log[j] == p.log[j];
      if Shown(p.log, j) {
        ShownStays(p.log, e, j);
      }
    }
  }

  lemma OpenLonger(log: seq<Entry>, since: int, later: int)
    requires OpenSince(log, since) && since <= later
    ensures OpenSince(log, later)
  {
    var j :| HeldSince(log, j, since);
    assert HeldSince(log, j, later);
  }

  lemma ReadKeeps(first: State, p: Gate, data: seq<Byte>, error: bool)
    requires Shape(p.model) && ParmOk(p.model) && GateInv(first, p)
    ensures GateInv(first, ReadStep(p, data, error))
  {
    hide Shape, ParmOk, Feed, WellGated, Shown, HeldSince, OpenSince;
    if data != [] {
      var m := Feed(p.model, data);
      FedKeeps(first, p, data, m, error);
      var q := p.(model := m, log := p.log + [Fed(p.now, data, m, error)]);
      if !m.sync {
        BroadcastKeeps(first, q.(start := NotHeld, valve := Off));
      } else {
        HeldKeeps(first, p, q, data, error);
      }
    }
  }

  lemma HeldKeeps(first: State, p: Gate, q: Gate, data: seq<Byte>, error: bool)
    requires GateInv(first, p) && q.model.sync
    requires q == p.(model := q.model, log := p.log + [Fed(p.now, data, q.model, error)])
    ensures GateInv(first, HeldStep(q, error))
  {
    hide Shape, ParmOk, Feed, WellGated, Shown, HeldSince;
    FedKeeps(first, p, data, q.model, error);
    if q.start.NotHeld? {
      assert OpenSince(q.log, q.now);
      var r := q.(start := Since(q.now), valve := Due(q.now + HOLD));
      assert Agrees(first, r);
      if error {
        BroadcastKeeps(first, r);
      }
    } else if q.now - q.start.at < HOLD {
      if error {
        BroadcastKeeps(first, q);
      }
    } else {
      OpenLonger(q.log, q.start.at, q.now - HOLD);
      BroadcastKeeps(first, q);
    }
  }

  lemma ValveKeeps(first: State, p: Gate)
    requires GateInv(first, p) && p.valve.Due? && p.valve.at <= p.now
    ensures GateInv(first, ValveStep(p))
  {
    hide WellGated, Shown, OpenSince;
    BroadcastKeeps(first, p.(valve := Off));
  }

  lemma StepKeeps(first: State, p: Gate, ev: Event)
    requires Shape(p.model) && ParmOk(p.model) && GateInv(first, p) && Timely(p, ev)
    ensures GateInv(first, Step(p, ev))
  {
    hide Shape, ParmOk, ReadStep, ValveStep, WellGated, Shown, OpenSince;
    match ev
    case Read(data, error) => ReadKeeps(first, p, data, error);
    case ValveFires =>
      if p.valve.Due? {
        ValveKeeps(first, p);
      }
    case Pass(d) =>
  }

  lemma {:induction false} RunKeepsGate(model: State, evs: seq<Event>)
    requires Shape(model) && ParmOk(model) && !model.sync && Timed(model, evs)
    ensures GateInv(model, SyncGate.Run(model, evs))
    decreases |evs|
  {
    hide Shape, ParmOk, GateInv, Timely, Step;
    if evs == [] {
      BeginKeeps(model);
    } else {
      var n := |evs| - 1;
      TimedPrefix(model, evs);
      RunKeepsGate(model, evs[..n]);
      StepKeeps(model, SyncGate.Run(model, evs[..n]), evs[n]);
    }
  }

  lemma BeginKeeps(model: State)
    requires !model.sync
    ensures GateInv(model, Begin(model))
  {
  }

  lemma TimedPrefix(model: State, evs: seq<Event>)
    requires Shape(model) && ParmOk(model) && Timed(model, evs) && evs != []
    ensures Timed(model, evs[..|evs| - 1])
    ensures Timely(SyncGate.Run(model, evs[..|evs| - 1]), evs[|evs| - 1])
  {
    hide Shape, ParmOk, Timely, SyncGate.Run;
    var n := |evs| - 1;
    assert evs[n] == evs[n];
    forall i {:trigger evs[..n][i]} | 0 <= i < n
      ensures Timely(SyncGate.Run(model, evs[..n][..i]), evs[..n][i])
    {
      assert evs[..n][..i] == evs[..i] && evs[..n][i] == evs[i];
    }
  }

  lemma OneMoreInOrder(log: seq<Entry>, e: Entry)
    requires InOrder(log)
    requires e.Fed? ==> forall j {:trigger log[j]} | 0 <= j < |log| && log[j].Fed? :: log[j].at <= e.at
    ensures InOrder(log + [e])
  {
    var longer := log + [e];
    forall i, j | 0 <= i < j < |longer| && longer[i].Fed? && longer[j].Fed?
      ensures longer[i].at <= longer[j].at
    {
      assert longer[i] == log[i] && (j < |log| ==> longer[j] == log[j]);
    }
  }

  lemma OneMoreOpen(log: seq<Entry>, e: Entry)
    requires AllOpen(log) && (e.Sent? ==> e.open)
    ensures AllOpen(log + [e])
  {
    var longer := log + [e];
    forall i {:trigger longer[i]} | 0 <= i < |longer| && longer[i].Sent?
      ensures longer[i].open
    {
      assert i < |log| ==> longer[i] == log[i];
    }
  }

  lemma ReadTidies(first: State, p: Gate, data: seq<Byte>, error: bool)
    requires Shape(p.model) && ParmOk(p.model) && GateInv(first, p) && Tidy(p) && !p.stopped
    ensures Tidy(ReadStep(p, data, error))
  {
    hide Shape, ParmOk, Feed, WellGated, Shown, OpenSince, InOrder, LastModel;
    if data != [] {
      var m := Feed(p.model, data);
      var e := Fed(p.now, data, m, error);
      OneMoreInOrder(p.log, e);
      OneMoreOpen(p.log, e);
      var log := p.log + [e];
      var f := Sent(p.now, m, true);
      OneMoreInOrder(log, f);
      OneMoreOpen(log, f);
    }
  }

  lemma StepTidies(first: State, p: Gate, ev: Event)
    requires Shape(p.model) && ParmOk(p.model) && GateInv(first, p) && Tidy(p) && Timely(p, ev)
    ensures Tidy(Step(p, ev))
  {
    hide Shape, ParmOk, ReadStep, WellGated, Shown, OpenSince, InOrder, LastModel;
    match ev
    case Read(data, error) =>
      if !p.stopped {
        ReadTidies(first, p, data, error);
      }
    case ValveFires =>
      var e := Sent(p.now, p.model, !p.stopped);
      OneMoreInOrder(p.log, e);
      if !p.stopped {
        OneMoreOpen(p.log, e);
      }
    case Pass(d) =>
  }

  lemma {:induction false} RunTidies(model: State, evs: seq<Event>)
    requires Shape(model) && ParmOk(model) && !model.sync && Timed(model, evs)
    ensures Tidy(SyncGate.Run(model, evs))
    decreases |evs|
  {
    hide Shape, ParmOk, GateInv, Timely, Step, Tidy;
    if evs == [] {
      BeginIsTidy(model);
    } else {
      var n := |evs| - 1;
      TimedPrefix(model, evs);
      RunTidies(model, evs[..n]);
      RunKeepsGate(model, evs[..n]);
      StepTidies(model, SyncGate.Run(model, evs[..n]), evs[n]);
    }
  }

  lemma BeginIsTidy(model: State)
    ensures Tidy(Begin(model))
  {
  }

  // ---- The results ----

  /** On every timed run, a frame shows the current model, and that is outside a synchronized
      update, or every read for a second left it inside one, or the frame is of a read that
      reported an error with its data. */
  lemma NeverMidFrame(model: State, evs: seq<Event>)
    requires Shape(model) && ParmOk(model) && !model.sync && Timed(model, evs)
    ensures WellGated(model, SyncGate.Run(model, evs).log)
  {
    RunKeepsGate(model, evs);
  }

  /** On every timed run, each read is shown to the host by a frame at most a second later, or
      it is not that late yet and the valve will send one in time. */
  lemma EverythingIsShown(model: State, evs: seq<Event>, j: nat)
    requires Shape(model) && ParmOk(model) && !model.sync && Timed(model, evs)
    requires j < |SyncGate.Run(model, evs).log| && SyncGate.Run(model, evs).log[j].Fed?
    ensures var p := SyncGate.Run(model, evs);
      || Shown(p.log, j)
      || (p.log[|p.log| - 1].Fed? && p.valve.Due? && p.now <= p.valve.at <= p.log[j].at + HOLD)
  {
    hide Shape, ParmOk, WellGated, Shown, OpenSince, SyncGate.Run;
    RunKeepsGate(model, evs);
  }

  /** While the gate runs, the clients are shown what the host is shown. */
  lemma ClientsSeeTheSame(model: State, evs: seq<Event>, j: nat)
    requires Shape(model) && ParmOk(model) && !model.sync && Timed(model, evs)
    requires j < |SyncGate.Run(model, evs).log| && !SyncGate.Run(model, evs).stopped
    ensures var p := SyncGate.Run(model, evs); Shown(p.log, j) == ShownToClients(p.log, j)
  {
    RunTidies(model, evs);
    hide SyncGate.Run;
    var p := SyncGate.Run(model, evs);
    if Shown(p.log, j) {
      var i :| j < i < |p.log| && p.log[i].Sent? && p.log[i].at <= p.log[j].at + HOLD;
      assert p.log[i].open;
    }
  }

  ghost predicate ClientsSawAll(log: seq<Entry>) {
    forall j {:trigger log[j]} | 0 <= j < |log| && log[j].Fed? :: ShownToClients(log, j)
  }

  /** When the master ends without further data, the clients have seen everything if and only
      if the last thing that happened was a frame; that is, when no timer is due at this very
      moment, if and only if the valve is off. */
  lemma ShownAtEnd(model: State, evs: seq<Event>)
    requires Shape(model) && ParmOk(model) && !model.sync && Timed(model, evs)
    requires !SyncGate.Run(model, evs).stopped
    ensures var p := SyncGate.Run(model, evs); var q := Step(p, Read([], true));
      && q.stopped
      && (ClientsSawAll(q.log) <==> (p.log == [] || p.log[|p.log| - 1].Sent?))
      && (p.valve != Due(p.now) ==> (ClientsSawAll(q.log) <==> p.valve.Off?))
  {
    hide Shape, ParmOk, WellGated, OpenSince, SyncGate.Run;
    RunKeepsGate(model, evs);
    RunTidies(model, evs);
    var p := SyncGate.Run(model, evs);
    forall j {:trigger p.log[j]} | 0 <= j < |p.log| && p.log[j].Fed?
      ensures Shown(p.log, j) == ShownToClients(p.log, j)
    {
      ClientsSeeTheSame(model, evs, j);
    }
    if p.log != [] && p.log[|p.log| - 1].Fed? {
      assert !ShownToClients(p.log, |p.log| - 1);
    }
  }

  /** Once the gate has stopped, nothing more reaches the clients, whatever still happens. */
  lemma NothingAfterStop(p: Gate, ev: Event, j: nat)
    requires Shape(p.model) && ParmOk(p.model) && p.stopped && j < |p.log|
    ensures Step(p, ev).stopped && p.log <= Step(p, ev).log
    ensures ShownToClients(Step(p, ev).log, j) == ShownToClients(p.log, j)
  {
    hide Shape, ParmOk, Feed;
    var log := Step(p, ev).log;
    assert log == p.log || log == p.log + [Sent(p.now, p.model, false)];
    assert forall i | 0 <= i < |p.log| :: log[i] == p.log[i];
    if ShownToClients(p.log, j) {
      var i :| j < i < |p.log| && p.log[i].Sent? && p.log[i].open && p.log[i].at <= p.log[j].at + HOLD;
      assert log[i] == p.log[i];
    }
  }

  /** Everything read until the gate stops. */
  function BytesRead(evs: seq<Event>): seq<Byte>
    decreases |evs|
  {
    if evs == [] then []
    else
      var ev := evs[|evs| - 1];
      BytesRead(evs[..|evs| - 1]) + if ev.Read? then ev.data else []
  }

  ghost predicate StillRunning(model: State, evs: seq<Event>)
    requires Shape(model) && ParmOk(model)
  {
    forall i {:trigger evs[..i]} | 0 <= i < |evs| :: !SyncGate.Run(model, evs[..i]).stopped
  }

  /** Whatever is held back, the model is the one the whole stream leads to. */
  lemma {:induction false} GateFeedsStream(model: State, evs: seq<Event>)
    requires Reached(model) && Shape(model) && ParmOk(model) && StillRunning(model, evs)
    ensures SyncGate.Run(model, evs).model == Feed(model, BytesRead(evs))
    decreases |evs|
  {
    hide Reached, Shape, ParmOk, Feed;
    if evs == [] {
      FeedNothing(model);
    } else {
      var n := |evs| - 1;
      forall i {:trigger evs[..n][..i]} | 0 <= i < n
        ensures !SyncGate.Run(model, evs[..n][..i]).stopped
      {
        assert evs[..n][..i] == evs[..i];
      }
      GateFeedsStream(model, evs[..n]);
      var p, b := SyncGate.Run(model, evs[..n]), BytesRead(evs[..n]);
      assert !p.stopped;
      if evs[n].Read? && evs[n].data != [] {
        FeedSplit(model, b, evs[n].data);
      } else {
        assert b + [] == b;
      }
    }
  }

  // ---- How old the update in a frame is ----

  /** The model was inside an update before the bytes, and after each of them. */
  ghost predicate Unbroken(s: State, data: seq<Byte>) {
    Shape(s) && ParmOk(s) && s.sync && forall k | 0 <= k <= |data| :: Feed(s, data[..k]).sync
  }

  /** When the update that is open at the end of the history was opened: at the read that did
      not stay inside an older one all the way. */
  ghost function OpenedAt(first: State, log: seq<Entry>): Start
    decreases |log|
  {
    if log == [] then NotHeld
    else
      var before, e := log[..|log| - 1], log[|log| - 1];
      if e.Sent? then OpenedAt(first, before)
      else if !e.model.sync then NotHeld
      else if Unbroken(LastModel(first, before), e.data) then OpenedAt(first, before)
      else Since(e.at)
  }

  /** Read `k` ended one update and began another. */
  ghost predicate Renews(first: State, log: seq<Entry>, k: nat) {
    && k < |log| && log[k].Fed? && log[k].model.sync
    && LastModel(first, log[..k]).sync && !Unbroken(LastModel(first, log[..k]), log[k].data)
  }

  /** Some read after `since` did. */
  ghost predicate RenewedSince(first: State, log: seq<Entry>, since: int) {
    exists k: nat :: Renews(first, log, k) && log[k].at > since
  }

  /** The read at which the open update began, and what came since. */
  ghost predicate Opening(first: State, log: seq<Entry>, k: nat) {
    && HeldFrom(log, k) && OpenedAt(first, log) == Since(log[k].at)
    && (Renews(first, log, k) || !LastModel(first, log[..k]).sync)
  }

  lemma {:induction false} FindOpening(first: State, log: seq<Entry>) returns (k: nat)
    requires !first.sync && LastModel(first, log).sync
    ensures Opening(first, log, k)
    decreases |log|
  {
    hide Unbroken;
    var n := |log| - 1;
    var before, e := log[..n], log[n];
    if e.Sent? || Unbroken(LastModel(first, before), e.data) {
      if e.Fed? {
        UnbrokenSync(LastModel(first, before), e.data);
      }
      k := FindOpening(first, before);
      assert log[..k] == before[..k] && log[k] == before[k];
    } else {
      k := n;
    }
  }

  lemma UnbrokenSync(s: State, data: seq<Byte>)
    ensures Unbroken(s, data) ==> s.sync
  {
  }

  /** The open update is no older than any read of its stretch that broke the one before. */
  lemma {:induction false} OpenedNoEarlier(first: State, log: seq<Entry>, k: nat)
    requires InOrder(log) && HeldFrom(log, k) && Renews(first, log, k)
    ensures OpenedAt(first, log).Since? && OpenedAt(first, log).at >= log[k].at
    decreases |log|
  {
    hide Unbroken;
    var n := |log| - 1;
    var before := log[..n];
    if k < n {
      assert log[..k] == before[..k] && log[k] == before[k];
      assert InOrder(before) && HeldFrom(before, k);
      OpenedNoEarlier(first, before, k);
    }
  }

  /** If no read of the stretch since `j` was without update before, a later read of it lies
      behind `j`. */
  lemma StretchStart(first: State, log: seq<Entry>, j: nat, k: nat)
    requires HeldFrom(log, j) && HeldFrom(log, k)
    ensures !LastModel(first, log[..k]).sync ==> k <= j
  {
    if j < k {
      LastIsSync(first, log, j, k);
    }
  }

  lemma {:induction false} LastIsSync(first: State, log: seq<Entry>, j: nat, k: nat)
    requires HeldFrom(log, j) && j < k <= |log|
    ensures LastModel(first, log[..k]).sync
    decreases k
  {
    var e := log[k - 1];
    assert log[..k][..k - 1] == log[..k - 1] && log[..k][k - 1] == e;
    if e.Sent? {
      LastIsSync(first, log, j, k - 1);
    }
  }

  /** A history behind which every read for a second left the model inside an update: that
      update is younger than a second exactly if a read of that second ended one update and
      began another. */
  lemma YoungIffRenewed(first: State, log: seq<Entry>, at: nat)
    requires !first.sync && InOrder(log) && LastModel(first, log).sync && OpenSince(log, at - HOLD)
    ensures OpenedAt(first, log).Since?
    ensures at < OpenedAt(first, log).at + HOLD <==> RenewedSince(first, log, at - HOLD)
  {
    hide Unbroken, LastModel, OpenedAt;
    var j: nat :| HeldSince(log, j, at - HOLD);
    var k := FindOpening(first, log);
    StretchStart(first, log, j, k);
    assert forall x: nat | x <= j && log[x].Fed? :: log[x].at <= log[j].at;
    if at < OpenedAt(first, log).at + HOLD {
      assert Renews(first, log, k);
    }
    if RenewedSince(first, log, at - HOLD) {
      var m: nat :| Renews(first, log, m) && log[m].at > at - HOLD;
      assert HeldFrom(log, m);
      OpenedNoEarlier(first, log, m);
    }
  }

  /** On every timed run, take a frame inside an update that is not of a read with an error:
      it shows an update opened less than a second before if and only if, less than a second
      before, some read ended one update and began another. */
  lemma FrameAge(model: State, evs: seq<Event>, i: nat)
    requires Shape(model) && ParmOk(model) && !model.sync && Timed(model, evs)
    requires var log := SyncGate.Run(model, evs).log;
      && i < |log| && log[i].Sent? && log[i].shown.sync
      && !(i > 0 && log[i - 1].Fed? && log[i - 1].last)
    ensures var log := SyncGate.Run(model, evs).log; var before, at := log[..i], log[i].at;
      && OpenedAt(model, before).Since?
      && (at < OpenedAt(model, before).at + HOLD <==> RenewedSince(model, before, at - HOLD))
  {
    hide SyncGate.Run, Shape, ParmOk, OpenSince, OpenedAt, LastModel, WellGated, InOrder, Timed, Renews;
    HistoryOk(model, evs);
    var log := SyncGate.Run(model, evs).log;
    GatedAt(model, log, i);
    PrefixInOrder(log, i);
    assert log[..i] == [] || log[..i][i - 1] == log[i - 1];
    YoungIffRenewed(model, log[..i], log[i].at);
  }

  lemma HistoryOk(model: State, evs: seq<Event>)
    requires Shape(model) && ParmOk(model) && !model.sync && Timed(model, evs)
    ensures WellGated(model, SyncGate.Run(model, evs).log) && InOrder(SyncGate.Run(model, evs).log)
  {
    RunKeepsGate(model, evs);
    RunTidies(model, evs);
    hide SyncGate.Run, Shape, ParmOk, WellGated, InOrder, Timed;
  }

  lemma GatedAt(first: State, log: seq<Entry>, i: nat)
    requires WellGated(first, log) && i < |log| && log[i].Sent?
    ensures MayShow(first, log[..i], log[i].at, log[i].shown)
  {
  }

  lemma PrefixInOrder(log: seq<Entry>, i: nat)
    requires InOrder(log) && i <= |log|
    ensures InOrder(log[..i])
  {
  }

  // ---- A frame that is one millisecond old ----

  function Marker(on: bool): seq<Byte> {
    CsiBytes(true, Numerals([2026]), if on then 0x68 else 0x6c)
  }

  /** These are the markers of internal/ttysync. */
  lemma MarkersAreTheSame()
    ensures Marker(true) == SyncWrap.BSU && Marker(false) == SyncWrap.ESU
  {
    assert Decimal(2) == [0x32] && Decimal(20) == [0x32, 0x30] && Decimal(202) == [0x32, 0x30, 0x32];
    assert Decimal(2026) == [0x32, 0x30, 0x32, 0x36];
    assert Numerals([2026]) == Decimal(2026);
  }

  ghost predicate Quiet(m: State) {
    Ready(m) && m.input.pend == []
  }

  lemma FeedMarker(m: State, on: bool)
    requires Quiet(m) && Shape(m) && ParmOk(m)
    ensures Quiet(Feed(m, Marker(on))) && Feed(m, Marker(on)).sync == on
  {
    hide Shape, Terminal.Run, Numerals, CsiBytes;
    var bytes := Marker(on);
    assert Carrying(m, []) == m && [] + bytes == bytes == bytes + [];
    var t := FrameRoundTrip.RunMode(m, 2026, on, []);
    RunNothing(t);
  }

  /** An update opened at 0 ms, ended at 999 ms by a read that opens another one. */
  function LateRenewal(): seq<Event> {
    [Read(Marker(true), false), Pass(999), Read(Marker(false) + Marker(true), false), Pass(1), ValveFires]
  }

  lemma RunNext(model: State, evs: seq<Event>, i: nat)
    requires Shape(model) && ParmOk(model) && i < |evs|
    ensures SyncGate.Run(model, evs[..i + 1]) == Step(SyncGate.Run(model, evs[..i]), evs[i])
  {
    hide Shape, ParmOk, Step;
    assert evs[..i + 1][..i] == evs[..i];
  }

  lemma MarkerNonempty(on: bool)
    ensures Marker(on) != []
  {
  }

  /** An update that is still open when the master ends: the clients never see that read. */
  lemma OpenUpdateIsLost(model: State)
    requires Quiet(model) && Shape(model) && ParmOk(model) && !model.sync
    ensures var evs := [Read(Marker(true), false)];
      && Timed(model, evs) && !SyncGate.Run(model, evs).stopped
      && !ClientsSawAll(Step(SyncGate.Run(model, evs), Read([], true)).log)
  {
    hide Shape, ParmOk, Quiet, Feed, Marker, SyncGate.Run;
    MarkerNonempty(true);
    FeedMarker(model, true);
    var evs := [Read(Marker(true), false)];
    assert evs[..0] == [] && evs[..1] == evs;
    RunOfNothing(model);
    RunNext(model, evs, 0);
    assert SyncGate.Run(model, evs).log == [Fed(0, Marker(true), Feed(model, Marker(true)), false)];
    ShownAtEnd(model, evs);
  }

  /** The valve fires at 1000 ms and sends a frame inside the second update. */
  lemma LateRenewalIsShown(model: State)
    requires Quiet(model) && Shape(model) && ParmOk(model) && !model.sync
    ensures Timed(model, LateRenewal())
    ensures var log := SyncGate.Run(model, LateRenewal()).log;
      && |log| == 3 && log[2].Sent? && log[2].at == 1000 && log[2].shown.sync
      && OpenedAt(model, log[..2]) == Since(999)
  {
    hide Shape, ParmOk, Quiet, Feed, Marker, SyncGate.Run;
    var renewal := Marker(false) + Marker(true);
    MarkerNonempty(true);
    FeedMarker(model, true);
    var m1 := Feed(model, Marker(true));
    FeedMarker(m1, false);
    FeedMarker(Feed(m1, Marker(false)), true);
    FeedSplit(m1, Marker(false), Marker(true));
    var m2 := Feed(m1, renewal);
    assert renewal[..|Marker(false)|] == Marker(false);
    assert !Unbroken(m1, renewal);
    LateRenewalRuns(model, m1, m2);
    var f1, f2 := Fed(0, Marker(true), m1, false), Fed(999, renewal, m2, false);
    LateRenewalAge(model, f1, f2, Sent(1000, m2, true));
  }

  lemma LateRenewalRuns(model: State, m1: State, m2: State)
    requires Shape(model) && ParmOk(model) && !model.sync && Marker(true) != []
    requires Shape(m1) && ParmOk(m1) && m1 == Feed(model, Marker(true)) && m1.sync
    requires m2 == Feed(m1, Marker(false) + Marker(true)) && m2.sync
    ensures Timed(model, LateRenewal())
    ensures SyncGate.Run(model, LateRenewal()).log ==
      [Fed(0, Marker(true), m1, false), Fed(999, Marker(false) + Marker(true), m2, false), Sent(1000, m2, true)]
  {
    hide Shape, ParmOk, Feed, Marker, SyncGate.Run;
    var evs := LateRenewal();
    var renewal := Marker(false) + Marker(true);
    assert evs[..0] == [] && evs[..5] == evs;
    assert SyncGate.Run(model, []) == Begin(model) by { RunOfNothing(model); }
    RunNext(model, evs, 0);
    RunNext(model, evs, 1);
    RunNext(model, evs, 2);
    RunNext(model, evs, 3);
    RunNext(model, evs, 4);
    var f1, f2 := Fed(0, Marker(true), m1, false), Fed(999, renewal, m2, false);
    assert SyncGate.Run(model, evs[..1]) == Gate(m1, Since(0), Due(1000), 0, false, [f1]);
    assert SyncGate.Run(model, evs[..2]) == Gate(m1, Since(0), Due(1000), 999, false, [f1]);
    assert SyncGate.Run(model, evs[..3]) == Gate(m2, Since(0), Due(1000), 999, false, [f1, f2]);
    assert SyncGate.Run(model, evs[..4]) == Gate(m2, Since(0), Due(1000), 1000, false, [f1, f2]);
  }

  lemma LateRenewalAge(model: State, f1: Entry, f2: Entry, sent: Entry)
    requires f1.Fed? && f2.Fed? && f2.model.sync && !Unbroken(f1.model, f2.data)
    ensures OpenedAt(model, [f1, f2, sent][..2]) == Since(f2.at)
  {
    hide Unbroken;
    assert [f1, f2, sent][..2] == [f1, f2] && [f1, f2][..1] == [f1];
    assert LastModel(model, [f1]) == f1.model;
  }

  lemma RunOfNothing(model: State)
    requires Shape(model) && ParmOk(model)
    ensures SyncGate.Run(model, []) == Begin(model)
  {
  }
}
