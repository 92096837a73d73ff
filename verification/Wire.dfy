/** The client wire protocol: frames as internal/client builds them, and the incremental
    decoder of internal/ptyproxy/server.go. */
module Wire {
  import opened Bytes

  const MAX_IMAGE_BYTES: nat := 8388608

  /** What the decoder does: `Input` forwards one byte to the master. */
  datatype Action =
    | Resize(rows: nat, cols: nat)
    | ScrollBy(dy: int)
    | Image(payload: seq<Byte>, code: Byte)
    | Input(b: Byte)

  function ForwardOf(bs: seq<Byte>): (acts: seq<Action>)
    ensures |acts| == |bs| && forall i | 0 <= i < |bs| :: acts[i] == Input(bs[i])
  {
    seq(|bs|, i requires 0 <= i < |bs| => Input(bs[i]))
  }

  // ---- Numbers on the wire ----

  function Be16(hi: Byte, lo: Byte): nat {
    hi * 256 + lo
  }

  /** The same 16 bits as a signed number. */
  function Signed16(n: nat): int {
    if n >= 32768 then n - 65536 else n
  }

  function Be32(a: Byte, b: Byte, c: Byte, d: Byte): nat {
    ((a * 256 + b) * 256 + c) * 256 + d
  }

  /** The low 16 bits, high byte first. */
  function Put16(n: int): seq<Byte> {
    [n / 256 % 256, n % 256]
  }

  function Put32(n: nat): seq<Byte> {
    [n / 16777216 % 256, n / 65536 % 256, n / 256 % 256, n % 256]
  }

  function Clamp16(dy: int): int {
    if dy < -32768 then -32768 else if dy > 32767 then 32767 else dy
  }

  // ---- Encoders ----

  /** What a client sends. */
  datatype Frame =
    | ResizeTo(rows: nat, cols: nat)
    | Scroll(dy: int)
    | Paste(payload: seq<Byte>, code: Byte)
    | Typed(bs: seq<Byte>)

  function Encode(f: Frame): seq<Byte> {
    match f
    case ResizeTo(rows, cols) => [0xff, 0xff] + Put16(rows) + Put16(cols)
    case Scroll(dy) => [0xff, 0xfe] + Put16(Clamp16(dy))
    case Paste(payload, code) => [0xff, 0xfd] + Put32(|payload|) + [code] + payload
    case Typed(bs) => bs
  }

  function EncodeAll(fs: seq<Frame>): seq<Byte> {
    if fs == [] then [] else Encode(fs[0]) + EncodeAll(fs[1..])
  }

  /** What the server should do for a frame. Sizes are sent in 16 bits. */
  function Meaning(f: Frame): seq<Action> {
    match f
    case ResizeTo(rows, cols) => [Resize(rows % 65536, cols % 65536)]
    case Scroll(dy) => [ScrollBy(Clamp16(dy))]
    case Paste(payload, code) => [Image(payload, code)]
    case Typed(bs) => ForwardOf(bs)
  }

  function MeaningAll(fs: seq<Frame>): seq<Action> {
    if fs == [] then [] else Meaning(fs[0]) + MeaningAll(fs[1..])
  }

  /** Images the protocol admits, and typed bytes without 0xff. */
  predicate Sendable(f: Frame) {
    match f
    case Paste(payload, _) => 1 <= |payload| <= MAX_IMAGE_BYTES
    case Typed(bs) => 0xff !in bs
    case _ => true
  }

  method SendScroll(dy: int) returns (b: seq<Byte>)
    ensures b == Encode(Scroll(dy))
  {
    var d := Clamp16(dy);
    b := [0xff, 0xfe];
    b := b + [d / 256 % 256, d % 256];
  }

  method SendResize(rows: nat, cols: nat) returns (b: seq<Byte>)
    ensures b == Encode(ResizeTo(rows, cols))
  {
    b := [0xff, 0xff];
    b := b + [rows / 256 % 256, rows % 256, cols / 256 % 256, cols % 256];
  }

  /** Fills the frame buffer by index and copy. */
  method SendImage(data: seq<Byte>, code: Byte) returns (fr: array<Byte>)
    ensures fresh(fr) && fr[..] == Encode(Paste(data, code))
  {
    fr := new Byte[7 + |data|](_ => 0);
    fr[0], fr[1] := 0xff, 0xfd;
    fr[2], fr[3], fr[4], fr[5] := |data| / 16777216 % 256, |data| / 65536 % 256, |data| / 256 % 256, |data| % 256;
    fr[6] := code;
    for i := 0 to |data|
      invariant fr[..7] == [0xff, 0xfd] + Put32(|data|) + [code]
      invariant fr[7..7 + i] == data[..i]
    {
      fr[7 + i] := data[i];
    }
    assert fr[..] == fr[..7] + fr[7..7 + |data|];
  }

  // ---- The decoder ----

  /** A magic number starts at `i`. */
  predicate MagicAt(bs: seq<Byte>, i: nat) {
    i + 1 < |bs| && bs[i] == 0xff && bs[i + 1] >= 0xfd
  }

  /** How a buffer begins: a complete frame of `n` bytes and what it asks for, an
      unfinished frame, or bytes for the master. */
  datatype Begin = Complete(n: nat, acts: seq<Action>) | Unfinished | Plain

  function ReadBegin(bs: seq<Byte>): (r: Begin)
    ensures r.Complete? ==> 2 <= r.n <= |bs| && |r.acts| <= 1
    ensures r.Plain? <==> !MagicAt(bs, 0)
  {
    if !MagicAt(bs, 0) then Plain
    else if bs[1] == 0xff then
      if |bs| < 6 then Unfinished else Complete(6, [Resize(Be16(bs[2], bs[3]), Be16(bs[4], bs[5]))])
    else if bs[1] == 0xfe then
      if |bs| < 4 then Unfinished else Complete(4, [ScrollBy(Signed16(Be16(bs[2], bs[3])))])
    else if |bs| < 7 then Unfinished
    else
      var n := Be32(bs[2], bs[3], bs[4], bs[5]);
      if n == 0 || n > MAX_IMAGE_BYTES then Complete(7, [])
      else if |bs| < 7 + n then Unfinished
      else Complete(7 + n, [Image(bs[7..7 + n], bs[6])])
  }

  /** Everything the buffer asks for, byte by byte, and what stays in it. */
  function Decode(bs: seq<Byte>): (r: (seq<Action>, seq<Byte>))
    ensures |r.1| <= |bs|
    decreases |bs|
  {
    if bs == [] then ([], [])
    else
      match ReadBegin(bs)
      case Unfinished => ([], bs)
      case Complete(n, acts) => var rest := Decode(bs[n..]); (acts + rest.0, rest.1)
      case Plain => var rest := Decode(bs[1..]); ([Input(bs[0])] + rest.0, rest.1)
  }

  /** Reads one after the other: what is done, and what stays in the buffer. */
  function DecodeReads(rest: seq<Byte>, chunks: seq<seq<Byte>>): (seq<Action>, seq<Byte>)
    decreases |chunks|
  {
    if chunks == [] then ([], rest)
    else
      var one := Decode(rest + chunks[0]);
      var more := DecodeReads(one.1, chunks[1..]);
      (one.0 + more.0, more.1)
  }

  class Client {
    var buf: seq<Byte>
    var rows: nat
    var cols: nat
    /** Everything done so far, in order. */
    var acts: seq<Action>

    constructor ()
      ensures buf == [] && acts == []
    {
      buf, rows, cols, acts := [], 24, 80, [];
    }

    /** Position of the next magic number, or the end. */
    method NextMagic() returns (cut: nat)
      ensures cut <= |buf| && (cut < |buf| ==> MagicAt(buf, cut))
      ensures forall i | 0 <= i < cut :: !MagicAt(buf, i)
    {
      cut := |buf|;
      var i := 0;
      while i + 1 < |buf|
        invariant cut == |buf|
        invariant forall k | 0 <= k < i :: !MagicAt(buf, k)
      {
        if buf[i] == 0xff && (buf[i + 1] == 0xff || buf[i + 1] == 0xfe || buf[i + 1] == 0xfd) {
          cut := i;
          break;
        }
        i := i + 1;
      }
    }

    /** Takes one complete frame off the front of the buffer, if there is one. */
    method TakeFrame() returns (r: Begin)
      modifies this
      ensures r == ReadBegin(old(buf))
      ensures r.Complete? ==> buf == old(buf)[r.n..] && acts == old(acts) + r.acts
      ensures !r.Complete? ==> buf == old(buf) && acts == old(acts)
    {
      if |buf| >= 2 && buf[0] == 0xff && buf[1] == 0xff {
        if |buf| < 6 {
          return Unfinished;
        }
        rows, cols := Be16(buf[2], buf[3]), Be16(buf[4], buf[5]);
        r := Complete(6, [Resize(rows, cols)]);
        acts := acts + [Resize(rows, cols)];
        buf := buf[6..];
        return;
      }
      if |buf| >= 2 && buf[0] == 0xff && buf[1] == 0xfe {
        if |buf| < 4 {
          return Unfinished;
        }
        var dy := Signed16(Be16(buf[2], buf[3]));
        r := Complete(4, [ScrollBy(dy)]);
        acts := acts + [ScrollBy(dy)];
        buf := buf[4..];
        return;
      }
      if |buf| >= 2 && buf[0] == 0xff && buf[1] == 0xfd {
        if |buf| < 7 {
          return Unfinished;
        }
        var n := Be32(buf[2], buf[3], buf[4], buf[5]);
        if n <= 0 || n > MAX_IMAGE_BYTES {
          r := Complete(7, []);
          buf := buf[7..];
          return;
        }
        if |buf| < 7 + n {
          return Unfinished;
        }
        r := Complete(7 + n, [Image(buf[7..7 + n], buf[6])]);
        acts := acts + [Image(buf[7..7 + n], buf[6])];
        buf := buf[7 + n..];
        return;
      }
      r := Plain;
    }

    /** Takes complete frames off the buffer and forwards what is between them. */
    method ParseClientInput()
      modifies this
      ensures buf == Decode(old(buf)).1 && acts == old(acts) + Decode(old(buf)).0
    {
      hide ReadBegin, MagicAt;
      while true
        invariant acts + Decode(buf).0 == old(acts) + Decode(old(buf)).0
        invariant Decode(buf).1 == Decode(old(buf)).1
        decreases |buf|
      {
        ghost var bs, done := buf, acts;
        var r := TakeFrame();
        if r.Complete? {
          assert bs != [];
          assert done + (r.acts + Decode(buf).0) == acts + Decode(buf).0;
          continue;
        }
        if r.Unfinished? {
          return;
        }
        var cut := NextMagic();
        if cut == 0 {
          assert buf == [] by { NoMagicFirst(buf); }
          return;
        }
        ForwardRun(buf, cut);
        acts := acts + ForwardOf(buf[..cut]);
        buf := buf[cut..];
        assert done + (ForwardOf(bs[..cut]) + Decode(buf).0) == acts + Decode(buf).0;
        if |buf| < 2 {
          assert buf == [] by { MagicIsTwo(bs, cut); }
          return;
        }
      }
    }

    /** One read from the connection. */
    method OnRead(data: seq<Byte>)
      modifies this
      ensures buf == Decode(old(buf) + data).1 && acts == old(acts) + Decode(old(buf) + data).0
    {
      buf := buf + data;
      ParseClientInput();
    }
  }

  lemma NoMagicFirst(bs: seq<Byte>)
    requires 0 < |bs| ==> MagicAt(bs, 0)
    requires ReadBegin(bs).Plain?
    ensures bs == []
  {
  }

  lemma MagicIsTwo(bs: seq<Byte>, cut: nat)
    requires cut <= |bs| && (cut < |bs| ==> MagicAt(bs, cut)) && |bs[cut..]| < 2
    ensures bs[cut..] == []
  {
  }

  lemma PlainStep(bs: seq<Byte>)
    requires bs != [] && !MagicAt(bs, 0)
    ensures Decode(bs) == ([Input(bs[0])] + Decode(bs[1..]).0, Decode(bs[1..]).1)
  {
    hide MagicAt;
  }

  lemma NoMagicAfter(bs: seq<Byte>, cut: nat)
    requires 1 <= cut <= |bs| && forall i | 0 <= i < cut :: !MagicAt(bs, i)
    ensures forall i | 0 <= i < cut - 1 :: !MagicAt(bs[1..], i)
  {
    forall i | 0 <= i < cut - 1
      ensures !MagicAt(bs[1..], i)
    {
      assert !MagicAt(bs, i + 1);
    }
  }

  /** Bytes without a magic number among them go to the master one after the other. */
  lemma {:induction false} ForwardRun(bs: seq<Byte>, cut: nat)
    requires cut <= |bs| && forall i | 0 <= i < cut :: !MagicAt(bs, i)
    ensures Decode(bs).0 == ForwardOf(bs[..cut]) + Decode(bs[cut..]).0
    ensures Decode(bs).1 == Decode(bs[cut..]).1
    decreases cut
  {
    hide Decode, MagicAt;
    if cut == 0 {
      assert bs[0..] == bs;
    } else {
      var t := bs[1..];
      NoMagicAfter(bs, cut);
      PlainStep(bs);
      ForwardRun(t, cut - 1);
      assert t[cut - 1..] == bs[cut..];
      var one, run := [Input(bs[0])], ForwardOf(t[..cut - 1]);
      assert ForwardOf(bs[..cut]) == one + run;
      assert one + (run + Decode(bs[cut..]).0) == (one + run) + Decode(bs[cut..]).0;
    }
  }
}
