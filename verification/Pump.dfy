/** The idle-batching pump of internal/ttysync/wrap.go as a step machine over reads,
    timers and time, and the event loop that is verified against it. */
module Pump {
  import opened Bytes
  import opened SyncWrap

  /** Times in nanoseconds; 0 switches a limit off. */
  datatype Config = Config(idle: nat, hold: nat, maxHold: nat, maxBuffer: nat, syncWrap: bool)

  datatype Timer = Off | Due(at: nat)

  /** `held` says whether the hold mode is active after the read. */
  datatype Event = Read(data: seq<Byte>, held: bool) | IdleFires | MaxHoldFires | Eof | Pass(d: nat)

  /** What became of a stretch of the input. */
  datatype Piece = Wrapped(seg: seq<Byte>) | Raw(seg: seq<Byte>) | Last(head: seq<Byte>, tail: seq<Byte>)

  /** `input` (all bytes read), `pieces` (how they were cut) and `ready` (for each byte of
      a finished sequence still in the buffer, when its sequence was finished) are history
      variables. */
  datatype State = State(
    buf: seq<Byte>, tracker: Tracker, idle: Timer, maxHold: Timer, now: nat, ended: bool,
    writes: seq<seq<Byte>>, input: seq<Byte>, pieces: seq<Piece>, ready: seq<nat>)

  const START := State([], FRESH, Off, Off, 0, false, [], [], [], [])

  /** Longest unfinished sequence that is held back. */
  const MAX_TAIL_HOLD: nat := 32768

  function WrapOf(head: seq<Byte>): seq<Byte> {
    if Strip(head) == [] then [] else Wrap(Strip(head))
  }

  /** A write, unless there is nothing to write. */
  function WriteOf(out: seq<Byte>): seq<seq<Byte>> {
    if out == [] then [] else [out]
  }

  function FlushStep(cfg: Config, p: State, eof: bool): (t: State)
    ensures t.ended == p.ended && t.now == p.now && t.input == p.input
  {
    if p.buf == [] then p
    else
      var q := p.(idle := Off, maxHold := Off, ready := []);
      var split := SplitOf(p.tracker, |p.buf|);
      if !cfg.syncWrap then q.(buf := [], writes := p.writes + [p.buf], pieces := p.pieces + [Raw(p.buf)])
      else if |p.buf| - split > MAX_TAIL_HOLD then
        q.(buf := [], tracker := FRESH, writes := p.writes + [p.buf], pieces := p.pieces + [Raw(p.buf)])
      else
        var head, tail := p.buf[..split], p.buf[split..];
        if eof then
          q.(buf := [], tracker := FRESH, writes := p.writes + WriteOf(WrapOf(head) + tail),
             pieces := p.pieces + [Last(head, tail)])
        else
          q.(buf := tail, tracker := Rebased(p.tracker, split), writes := p.writes + WriteOf(WrapOf(head)),
             pieces := p.pieces + [Wrapped(head)])
  }

  /** Bytes of the buffer that belong to finished sequences. */
  function Head(cfg: Config, p: State): nat {
    if cfg.syncWrap then SplitOf(p.tracker, |p.buf|) else |p.buf|
  }

  /** Stamps the newly finished bytes. */
  function Stamped(cfg: Config, p: State): (t: State)
    ensures t == p.(ready := t.ready)
  {
    var h := Head(cfg, p);
    p.(ready := if |p.ready| < h then p.ready + seq(h - |p.ready|, _ => p.now) else p.ready)
  }

  /** The read is in the buffer and the tracker has seen it. */
  function Appended(cfg: Config, p: State, data: seq<Byte>): State {
    Stamped(cfg, p.(buf := p.buf + data, input := p.input + data,
                    tracker := if cfg.syncWrap then TrackMore(p.tracker, data, |p.buf|) else p.tracker))
  }

  /** The oldest byte keeps its deadline; the idle timer starts over. */
  function Armed(cfg: Config, p: State, held: bool): State {
    p.(maxHold := if cfg.maxHold > 0 && p.maxHold == Off then Due(p.now + cfg.maxHold) else p.maxHold,
       idle := Due(p.now + if held && cfg.hold > 0 then cfg.hold else cfg.idle))
  }

  function ReadStep(cfg: Config, p: State, data: seq<Byte>, held: bool): State {
    var q := Appended(cfg, p, data);
    if cfg.maxBuffer > 0 && |q.buf| >= cfg.maxBuffer then FlushStep(cfg, q, false) else Armed(cfg, q, held)
  }

  /** One event; what cannot happen in a state changes nothing. */
  function Step(cfg: Config, p: State, ev: Event): State {
    if p.ended then p
    else
      match ev
      case Read(data, held) => ReadStep(cfg, p, data, held)
      case IdleFires => if p.idle.Due? then FlushStep(cfg, p.(idle := Off), false) else p
      case MaxHoldFires => if p.maxHold.Due? then FlushStep(cfg, p.(maxHold := Off), false) else p
      case Eof => FlushStep(cfg, p, true).(ended := true)
      case Pass(d) => p.(now := p.now + d)
  }

  function Run(cfg: Config, evs: seq<Event>): State {
    if evs == [] then START else Step(cfg, Run(cfg, evs[..|evs| - 1]), evs[|evs| - 1])
  }

  // ---- The loop ----

  class Loop {
    const cfg: Config
    const tracker: TailTracker
    var buf: seq<Byte>
    var idle: Timer
    var maxHold: Timer
    var now: nat
    var ended: bool
    var dst: seq<seq<Byte>>
    ghost var input: seq<Byte>
    ghost var pieces: seq<Piece>
    ghost var ready: seq<nat>

    ghost function Abs(): State
      reads this, tracker
    {
      State(buf, tracker.Abs(), idle, maxHold, now, ended, dst, input, pieces, ready)
    }

    constructor (cfg: Config)
      ensures this.cfg == cfg && Abs() == START && fresh(tracker)
    {
      this.cfg := cfg;
      tracker := new TailTracker();
      buf, idle, maxHold, now, ended, dst := [], Off, Off, 0, false, [];
      input, pieces, ready := [], [], [];
    }

    method Write(out: seq<Byte>)
      modifies `dst
      ensures dst == old(dst) + WriteOf(out)
    {
      if |out| > 0 {
        dst := dst + [out];
      }
    }

    /** Writes what may be written and keeps an unfinished sequence for later. */
    method Flush(eof: bool)
      modifies this, tracker
      ensures Abs() == FlushStep(cfg, old(Abs()), eof)
    {
      if |buf| == 0 {
        return;
      }
      idle, maxHold := Off, Off;
      ready := [];
      if !cfg.syncWrap {
        Write(buf);
        pieces := pieces + [Raw(buf)];
        buf := [];
        return;
      }
      var split := tracker.SplitAt(|buf|);
      if |buf| - split > MAX_TAIL_HOLD {
        Write(buf);
        pieces := pieces + [Raw(buf)];
        buf := [];
        tracker.Reset();
        return;
      }
      FlushHead(split, eof);
    }

    /** Wraps the finished part; at the end of the stream the rest follows raw. */
    method FlushHead(split: nat, eof: bool)
      requires split <= |buf|
      modifies `buf, `dst, `pieces, tracker
      ensures dst == old(dst) + WriteOf(if eof then WrapOf(old(buf)[..split]) + old(buf)[split..]
                                        else WrapOf(old(buf)[..split]))
      ensures buf == if eof then [] else old(buf)[split..]
      ensures tracker.Abs() == if eof then FRESH else Rebased(old(tracker.Abs()), split)
      ensures pieces == old(pieces)
                      + [if eof then Last(old(buf)[..split], old(buf)[split..]) else Wrapped(old(buf)[..split])]
    {
      var payload, carry := StripSyncMarkers(buf[..split]);
      if |carry| > 0 {
        payload := payload + carry;
      }
      var out: seq<Byte> := [];
      if |payload| > 0 {
        out := Wrap(payload);
      }
      assert out == WrapOf(buf[..split]);
      if eof {
        out := out + buf[split..];
        pieces := pieces + [Last(buf[..split], buf[split..])];
        buf := [];
        tracker.Reset();
      } else {
        pieces := pieces + [Wrapped(buf[..split])];
        buf := buf[split..];
        tracker.Rebase(split);
      }
      Write(out);
    }

    method OnRead(data: seq<Byte>, held: bool)
      modifies this, tracker
      ensures Abs() == ReadStep(cfg, old(Abs()), data, held)
    {
      hide FlushStep;
      if cfg.syncWrap {
        tracker.FeedAll(data, |buf|);
      }
      buf := buf + data;
      input := input + data;
      ready := Stamped(cfg, Abs()).ready;
      if cfg.maxBuffer > 0 && |buf| >= cfg.maxBuffer {
        Flush(false);
        return;
      }
      if cfg.maxHold > 0 && maxHold == Off {
        maxHold := Due(now + cfg.maxHold);
      }
      var d := cfg.idle;
      if held && cfg.hold > 0 {
        d := cfg.hold;
      }
      idle := Due(now + d);
    }

    /** One turn of the select. */
    method Handle(ev: Event)
      modifies this, tracker
      ensures Abs() == Step(cfg, old(Abs()), ev)
    {
      hide FlushStep, ReadStep;
      if ended {
        return;
      }
      match ev {
        case Read(data, held) => OnRead(data, held);
        case IdleFires =>
          if idle.Due? {
            idle := Off;
            Flush(false);
          }
        case MaxHoldFires =>
          if maxHold.Due? {
            maxHold := Off;
            Flush(false);
          }
        case Eof =>
          Flush(true);
          ended := true;
        case Pass(d) => now := now + d;
      }
    }
  }

  /** The pump over a whole sequence of events: what it wrote, write by write. */
  method PumpWithIdleConfig(cfg: Config, evs: seq<Event>) returns (writes: seq<seq<Byte>>)
    ensures writes == Run(cfg, evs).writes
  {
    hide Step;
    var loop := new Loop(cfg);
    assert evs[..0] == [];
    for i := 0 to |evs|
      invariant loop.cfg == cfg && fresh(loop) && fresh(loop.tracker)
      invariant loop.Abs() == Run(cfg, evs[..i])
    {
      assert evs[..i + 1][..i] == evs[..i];
      loop.Handle(evs[i]);
    }
    assert evs[..|evs|] == evs;
    writes := loop.dst;
  }
}
