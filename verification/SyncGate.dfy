/** The synchronized-output gate of internal/ptyproxy/server.go: masterPump and the valve
    timer, as a timed state machine and as the methods verified against it. Times are in
    milliseconds. */
module SyncGate {
  import opened Bytes
  import opened Terminal
  import opened VTModel

  const HOLD: nat := 1000

  datatype Start = NotHeld | Since(at: nat)
  datatype Timer = Off | Due(at: nat)

  /** History: a read was fed (its bytes, the model after it, and whether the read also
      reported an error), or a frame of the model was sent to the host and, as long as the
      connections are open, to every client. */
  datatype Entry =
    | Fed(at: nat, data: seq<Byte>, model: State, last: bool)
    | Sent(at: nat, shown: State, open: bool)

  datatype Gate = Gate(model: State, start: Start, valve: Timer, now: nat, stopped: bool, log: seq<Entry>)

  /** `Read` is one return of master.Read: the bytes, and whether there was an error. */
  datatype Event = Read(data: seq<Byte>, error: bool) | ValveFires | Pass(d: nat)

  function Broadcast(p: Gate): Gate {
    p.(log := p.log + [Sent(p.now, p.model, !p.stopped)])
  }

  /** A read that leaves the model inside a synchronized update. */
  function HeldStep(p: Gate, error: bool): Gate {
    var q := if p.start.NotHeld? then p.(start := Since(p.now), valve := Due(p.now + HOLD)) else p;
    if p.now - q.start.at < HOLD && !error then q
    else Broadcast(q).(stopped := error)
  }

  function ReadStep(p: Gate, data: seq<Byte>, error: bool): (q: Gate)
    requires Shape(p.model) && ParmOk(p.model)
    ensures Shape(q.model) && ParmOk(q.model)
  {
    if data == [] then p.(stopped := error)
    else
      var m := Feed(p.model, data);
      var q := p.(model := m, log := p.log + [Fed(p.now, data, m, error)]);
      if m.sync then HeldStep(q, error) else Broadcast(q.(start := NotHeld, valve := Off)).(stopped := error)
  }

  function ValveStep(p: Gate): (q: Gate)
    ensures q.model == p.model
  {
    var q := p.(valve := Off);
    if p.model.sync && p.start.Since? then Broadcast(q) else q
  }

  /** One event. After Stop nothing is read any more, but the valve can still fire: the
      clients' connections are closed then, the host is not. */
  function Step(p: Gate, ev: Event): (q: Gate)
    requires Shape(p.model) && ParmOk(p.model)
    ensures Shape(q.model) && ParmOk(q.model)
  {
    match ev
    case Read(data, error) => if p.stopped then p else ReadStep(p, data, error)
    case ValveFires => if p.valve.Due? then ValveStep(p) else p
    case Pass(d) => p.(now := p.now + d)
  }

  function Begin(model: State): Gate {
    Gate(model, NotHeld, Off, 0, false, [])
  }

  function Run(model: State, evs: seq<Event>): (q: Gate)
    requires Shape(model) && ParmOk(model)
    ensures Shape(q.model) && ParmOk(q.model)
    decreases |evs|
  {
    if evs == [] then Begin(model) else Step(Run(model, evs[..|evs| - 1]), evs[|evs| - 1])
  }

  class Server {
    const vt: VT
    var syncStart: Start
    var syncTimer: Timer
    var now: nat
    var stopped: bool
    ghost var log: seq<Entry>

    ghost function Abs(): Gate
      reads this, vt, vt.buf, vt.hist
      requires vt.Valid()
    {
      Gate(vt.Abs(), syncStart, syncTimer, now, stopped, log)
    }

    constructor (vt: VT)
      requires vt.Valid()
      ensures this.vt == vt && vt.Valid() && Abs() == Begin(vt.Abs())
    {
      this.vt := vt;
      syncStart, syncTimer, now, stopped, log := NotHeld, Off, 0, false, [];
    }

    /** The frame that goes to the host and to every open client. */
    method BroadcastLocked()
      requires vt.Valid()
      modifies `log
      ensures Abs() == Broadcast(old(Abs()))
    {
      log := log + [Sent(now, vt.Abs(), !stopped)];
    }

    method SyncValve()
      requires vt.Valid() && syncTimer.Due?
      modifies `log, `syncTimer
      ensures Abs() == ValveStep(old(Abs()))
    {
      syncTimer := Off;
      if vt.syncActive && syncStart.Since? {
        BroadcastLocked();
      }
    }

    /** One turn of masterPump, from a return of master.Read to the next. */
    method OnRead(data: seq<Byte>, error: bool)
      requires vt.Valid() && !stopped
      modifies this, vt, vt.buf
      ensures vt.Valid() && Abs() == ReadStep(old(Abs()), data, error)
    {
      hide Feed, Shape, ParmOk, VT.Valid;
      if |data| > 0 {
        vt.Feed(data);
        log := log + [Fed(now, data, vt.Abs(), error)];
        if vt.syncActive {
          if syncStart.NotHeld? {
            syncStart := Since(now);
            syncTimer := Due(now + HOLD);
          }
          if now - syncStart.at < HOLD {
            if !error {
              return;
            }
            BroadcastLocked();
            stopped := true;
            return;
          }
        } else {
          syncStart := NotHeld;
          syncTimer := Off;
        }
        BroadcastLocked();
      }
      if error {
        stopped := true;
      }
    }
  }
}
