/** Main results about the wire protocol: the decoder inverts the encoders, and exactly
    which ways of cutting the stream it tolerates. */
module WireTheorems {
  import opened Bytes
  import opened Wire

  predicate AllSendable(fs: seq<Frame>) {
    forall i | 0 <= i < |fs| :: Sendable(fs[i])
  }

  // ---- One frame at the front ----

  lemma Be32Put32(n: nat)
    requires n < 0x1_0000_0000
    ensures var p := Put32(n); |p| == 4 && Be32(p[0], p[1], p[2], p[3]) == n
  {
    assert n / 256 / 256 == n / 65536 && n / 65536 / 256 == n / 16777216;
  }

  lemma Signed16Put16(dy: int)
    requires -32768 <= dy <= 32767
    ensures Signed16(Be16(dy / 256 % 256, dy % 256)) == dy
  {
  }

  lemma Put16Be16(n: nat)
    ensures Be16(n / 256 % 256, n % 256) == n % 65536
  {
  }

  lemma ResizeBegins(rows: nat, cols: nat, rest: seq<Byte>)
    ensures ReadBegin(Encode(ResizeTo(rows, cols)) + rest) == Complete(6, [Resize(rows % 65536, cols % 65536)])
  {
    hide Be16;
    Put16Be16(rows);
    Put16Be16(cols);
  }

  lemma ScrollBegins(dy: int, rest: seq<Byte>)
    ensures ReadBegin(Encode(Scroll(dy)) + rest) == Complete(4, [ScrollBy(Clamp16(dy))])
  {
    hide Be16, Signed16;
    Signed16Put16(Clamp16(dy));
  }

  /** A distance arrives as it is if it fits into 16 bits with its sign, and as the nearest one
      that does otherwise. */
  lemma ScrollArrives(dy: int) returns (d: int)
    ensures Decode(Encode(Scroll(dy))) == ([ScrollBy(d)], [])
    ensures d == if dy < -32768 then -32768 else if dy <= 32767 then dy else 32767
  {
    d := Clamp16(dy);
    var fs := [Scroll(dy)];
    DecodeInvertsEncode(fs);
    assert EncodeAll([]) == [] && MeaningAll([]) == [] && fs[1..] == [];
    assert EncodeAll(fs) == Encode(Scroll(dy)) + [] == Encode(Scroll(dy));
    assert MeaningAll(fs) == [ScrollBy(Clamp16(dy))] + [] == [ScrollBy(Clamp16(dy))];
  }

  lemma PasteBegins(payload: seq<Byte>, code: Byte, rest: seq<Byte>)
    requires 1 <= |payload| <= MAX_IMAGE_BYTES
    ensures ReadBegin(Encode(Paste(payload, code)) + rest) == Complete(7 + |payload|, [Image(payload, code)])
  {
    hide Be32, Put32;
    var bs := Encode(Paste(payload, code)) + rest;
    var len := Put32(|payload|);
    Be32Put32(|payload|);
    assert bs[2..6] == len;
    assert bs[2] == len[0] && bs[3] == len[1] && bs[4] == len[2] && bs[5] == len[3];
    assert bs[7..7 + |payload|] == payload;
  }

  /** A frame that is not typed text is taken off whole. */
  lemma FrameBegins(f: Frame, rest: seq<Byte>)
    requires Sendable(f) && !f.Typed?
    ensures ReadBegin(Encode(f) + rest) == Complete(|Encode(f)|, Meaning(f))
  {
    hide ReadBegin;
    match f
    case ResizeTo(rows, cols) => ResizeBegins(rows, cols, rest);
    case Scroll(dy) => ScrollBegins(dy, rest);
    case Paste(payload, code) => PasteBegins(payload, code, rest);
  }

  lemma PasteWaits(payload: seq<Byte>, code: Byte, n: nat)
    requires 1 <= |payload| <= MAX_IMAGE_BYTES && 2 <= n < 7 + |payload|
    ensures ReadBegin(Encode(Paste(payload, code))[..n]) == Unfinished
  {
    hide Be32, Put32;
    var len := Put32(|payload|);
    Be32Put32(|payload|);
    var bs := Encode(Paste(payload, code))[..n];
    if n >= 7 {
      assert bs[2..6] == len;
      assert bs[2] == len[0] && bs[3] == len[1] && bs[4] == len[2] && bs[5] == len[3];
    }
  }

  /** A beginning of two bytes or more of such a frame waits for the rest. */
  lemma FrameWaits(f: Frame, n: nat)
    requires Sendable(f) && !f.Typed? && 2 <= n < |Encode(f)|
    ensures ReadBegin(Encode(f)[..n]) == Unfinished
  {
    match f
    case ResizeTo(rows, cols) =>
    case Scroll(dy) =>
    case Paste(payload, code) => PasteWaits(payload, code, n);
  }

  lemma TypedDecodes(bs: seq<Byte>, rest: seq<Byte>)
    requires 0xff !in bs
    ensures Decode(bs + rest) == (ForwardOf(bs) + Decode(rest).0, Decode(rest).1)
  {
    hide Decode;
    assert forall i | 0 <= i < |bs| :: (bs + rest)[i] == bs[i] && bs[i] in bs;
    ForwardRun(bs + rest, |bs|);
    assert (bs + rest)[..|bs|] == bs && (bs + rest)[|bs|..] == rest;
  }

  /** The decoder inverts the encoders on every stream of frames. */
  lemma {:induction false} DecodeInvertsEncode(fs: seq<Frame>)
    requires AllSendable(fs)
    ensures Decode(EncodeAll(fs)) == (MeaningAll(fs), [])
    decreases |fs|
  {
    if fs != [] {
      var rest := EncodeAll(fs[1..]);
      DecodeInvertsEncode(fs[1..]);
      if fs[0].Typed? {
        TypedDecodes(fs[0].bs, rest);
      } else {
        FrameBegins(fs[0], rest);
        hide ReadBegin;
        assert (Encode(fs[0]) + rest)[|Encode(fs[0])|..] == rest;
        assert Encode(fs[0]) + rest != [] by { EncodeNonempty(fs[0]); }
      }
    }
  }

  lemma EncodeNonempty(f: Frame)
    requires !f.Typed?
    ensures |Encode(f)| >= 4 && Encode(f)[0] == 0xff && Encode(f)[1] >= 0xfd
  {
  }

  // ---- Cutting the stream ----

  /** Decoding `x` ends by forwarding a lone 0xff. */
  predicate EndsInLone(x: seq<Byte>)
    decreases |x|
  {
    if x == [] then false
    else
      match ReadBegin(x)
      case Unfinished => false
      case Complete(n, _) => EndsInLone(x[n..])
      case Plain => if |x| == 1 then x[0] == 0xff else EndsInLone(x[1..])
  }

  lemma BeginStays(x: seq<Byte>, y: seq<Byte>)
    requires x != []
    ensures ReadBegin(x).Complete? ==> ReadBegin(x + y) == ReadBegin(x)
    ensures ReadBegin(x).Plain? && (|x| >= 2 || x[0] != 0xff || y == [] || y[0] < 0xfd) ==> ReadBegin(x + y).Plain?
  {
    if ReadBegin(x).Complete? && x[1] == 0xfd {
      var n := Be32(x[2], x[3], x[4], x[5]);
      assert 7 + n <= |x| ==> (x + y)[7..7 + n] == x[7..7 + n];
    }
  }

  /** Decoding in two steps is decoding at once, unless the cut leaves a lone 0xff in
      front of a byte that makes it a magic number. */
  lemma {:induction false} DecodeSplit(x: seq<Byte>, y: seq<Byte>)
    requires !EndsInLone(x) || y == [] || y[0] < 0xfd
    ensures Decode(x + y).0 == Decode(x).0 + Decode(Decode(x).1 + y).0
    ensures Decode(x + y).1 == Decode(Decode(x).1 + y).1
    decreases |x|
  {
    hide ReadBegin, MagicAt;
    if x == [] {
      assert x + y == [] + y;
      return;
    }
    BeginStays(x, y);
    match ReadBegin(x)
    case Unfinished =>
      assert [] + Decode(x + y).0 == Decode(x + y).0;
    case Complete(n, acts) =>
      assert (x + y)[n..] == x[n..] + y;
      DecodeSplit(x[n..], y);
      var tail := Decode(x[n..]);
      assert acts + (tail.0 + Decode(tail.1 + y).0) == (acts + tail.0) + Decode(tail.1 + y).0;
    case Plain =>
      var one := [Input(x[0])];
      assert (x + y)[1..] == x[1..] + y;
      if |x| == 1 {
        assert x[1..] == [];
        assert [] + y == y;
        assert one + [] == one;
      } else {
        DecodeSplit(x[1..], y);
        var tail := Decode(x[1..]);
        assert one + (tail.0 + Decode(tail.1 + y).0) == (one + tail.0) + Decode(tail.1 + y).0;
      }
  }

  lemma {:induction false} LoneIsForwarded(x: seq<Byte>)
    requires EndsInLone(x)
    ensures Input(0xff) in Decode(x).0
    decreases |x|
  {
    match ReadBegin(x)
    case Complete(n, acts) => LoneIsForwarded(x[n..]);
    case Plain =>
      if |x| > 1 {
        LoneIsForwarded(x[1..]);
      } else {
        assert Decode(x).0[0] == Input(0xff);
      }
  }

  // ---- Cuts of an encoded stream ----

  /** Position `c` lies between the two magic bytes of a frame. */
  predicate SplitsMagic(fs: seq<Frame>, c: nat)
    decreases |fs|
  {
    if fs == [] then false
    else if !fs[0].Typed? && c == 1 then true
    else c >= |Encode(fs[0])| && SplitsMagic(fs[1..], c - |Encode(fs[0])|)
  }

  lemma {:induction false} LoneAfterTyped(bs: seq<Byte>, x: seq<Byte>)
    requires 0xff !in bs
    ensures EndsInLone(bs + x) == EndsInLone(x)
    decreases |bs|
  {
    if bs == [] {
      assert bs + x == x;
    } else {
      assert bs[0] in bs;
      assert (bs + x)[1..] == bs[1..] + x;
      LoneAfterTyped(bs[1..], x);
      if |bs + x| == 1 {
        assert x == [];
      }
    }
  }

  /** A prefix of an encoded stream ends in a lone 0xff exactly if it ends between the two
      magic bytes of a frame. */
  lemma {:induction false} LoneIffSplitsMagic(fs: seq<Frame>, c: nat)
    requires AllSendable(fs) && c <= |EncodeAll(fs)|
    ensures EndsInLone(EncodeAll(fs)[..c]) == SplitsMagic(fs, c)
    decreases |fs|
  {
    if fs == [] {
      return;
    }
    var f, n := fs[0], |Encode(fs[0])|;
    var x := EncodeAll(fs)[..c];
    if c >= n {
      assert x == Encode(f) + EncodeAll(fs[1..])[..c - n];
      LoneIffSplitsMagic(fs[1..], c - n);
      if f.Typed? {
        LoneAfterTyped(f.bs, EncodeAll(fs[1..])[..c - n]);
      } else {
        EncodeNonempty(f);
        FrameBegins(f, EncodeAll(fs[1..])[..c - n]);
        hide ReadBegin;
        assert x[n..] == EncodeAll(fs[1..])[..c - n];
      }
    } else {
      assert x == Encode(f)[..c];
      if f.Typed? {
        LoneAfterTyped(f.bs[..c], []);
        assert f.bs[..c] + [] == x;
      } else if c >= 2 {
        FrameWaits(f, c);
        hide ReadBegin;
      } else {
        EncodeNonempty(f);
      }
    }
  }

  // ---- Reads ----

  /** Length of the stream up to the start of read `k`. */
  function Boundary(chunks: seq<seq<Byte>>, k: nat): nat
    requires k <= |chunks|
  {
    |Flatten(chunks[..k])|
  }

  lemma FlattenOne(chunk: seq<Byte>)
    ensures Flatten([chunk]) == chunk
  {
    assert Flatten([chunk]) == chunk + Flatten([chunk][1..]);
    assert [chunk][1..] == [];
    assert chunk + [] == chunk;
  }

  lemma FlattenStep(chunks: seq<seq<Byte>>, k: nat)
    requires k < |chunks|
    ensures Flatten(chunks[..k + 1]) == Flatten(chunks[..k]) + chunks[k]
  {
    FlattenOne(chunks[k]);
    hide Flatten;
    assert chunks[..k + 1] == chunks[..k] + [chunks[k]];
    FlattenAppend(chunks[..k], [chunks[k]]);
  }

  lemma FlattenCut(chunks: seq<seq<Byte>>, k: nat)
    requires k <= |chunks|
    ensures Flatten(chunks) == Flatten(chunks[..k]) + Flatten(chunks[k..])
  {
    hide Flatten;
    assert chunks == chunks[..k] + chunks[k..];
    FlattenAppend(chunks[..k], chunks[k..]);
  }

  /** As long as no read so far ended in a lone 0xff, reads decode like the whole. */
  lemma {:induction false} ReadsDecode(chunks: seq<seq<Byte>>, k: nat)
    requires k <= |chunks|
    requires forall j | 0 <= j < k :: !EndsInLone(Flatten(chunks[..j]))
    ensures DecodeReads([], chunks[..k]) == Decode(Flatten(chunks[..k]))
    decreases k
  {
    if k == 0 {
      assert chunks[..0] == [];
    } else {
      var x := Flatten(chunks[..k - 1]);
      ReadsDecode(chunks, k - 1);
      FlattenStep(chunks, k - 1);
      DecodeSplit(x, chunks[k - 1]);
      ReadsAppend([], chunks[..k - 1], chunks[k - 1]);
      assert chunks[..k] == chunks[..k - 1] + [chunks[k - 1]];
    }
  }

  /** The last read, decoded after the others. */
  lemma {:induction false} ReadsAppend(rest: seq<Byte>, chunks: seq<seq<Byte>>, last: seq<Byte>)
    ensures var before := DecodeReads(rest, chunks); var one := Decode(before.1 + last);
      DecodeReads(rest, chunks + [last]) == (before.0 + one.0, one.1)
    decreases |chunks|
  {
    hide Decode;
    if chunks == [] {
      var one := Decode(rest + last);
      assert chunks + [last] == [last] && [last][1..] == [];
      assert DecodeReads(one.1, []) == ([], one.1);
      assert one.0 + [] == one.0 == [] + one.0;
    } else {
      var one := Decode(rest + chunks[0]);
      assert (chunks + [last])[1..] == chunks[1..] + [last];
      ReadsAppend(one.1, chunks[1..], last);
      var before := DecodeReads(one.1, chunks[1..]);
      var end := Decode(before.1 + last);
      assert one.0 + (before.0 + end.0) == (one.0 + before.0) + end.0;
    }
  }

  /** What was done stays done. */
  lemma {:induction false} ReadsPrefix(chunks: seq<seq<Byte>>, k: nat)
    requires k <= |chunks|
    ensures DecodeReads([], chunks[..k]).0 <= DecodeReads([], chunks).0
    decreases |chunks| - k
  {
    hide Decode;
    if k == |chunks| {
      assert chunks[..k] == chunks;
    } else {
      ReadsAppend([], chunks[..k], chunks[k]);
      assert chunks[..k + 1] == chunks[..k] + [chunks[k]];
      ReadsPrefix(chunks, k + 1);
    }
  }

  /** An image of length 0, or longer than the protocol admits: exactly its header is dropped,
      and what follows is decoded as if it were not there. */
  lemma BadImageIsDropped(n: nat, code: Byte, rest: seq<Byte>)
    requires n == 0 || MAX_IMAGE_BYTES < n < 0x1_0000_0000
    ensures Decode([0xff, 0xfd] + Put32(n) + [code] + rest) == Decode(rest)
  {
    var bs := [0xff, 0xfd] + Put32(n) + [code] + rest;
    BadImageBegins(n, code, rest);
    hide ReadBegin, Put32;
    assert bs[7..] == rest;
    assert [] + Decode(rest).0 == Decode(rest).0;
    hide Decode;
  }

  lemma BadImageBegins(n: nat, code: Byte, rest: seq<Byte>)
    requires n == 0 || MAX_IMAGE_BYTES < n < 0x1_0000_0000
    ensures |Put32(n)| == 4 && ReadBegin([0xff, 0xfd] + Put32(n) + [code] + rest) == Complete(7, [])
  {
    Be32Put32(n);
    var len := Put32(n);
    hide Be32, Put32;
    var bs := [0xff, 0xfd] + len + [code] + rest;
    assert bs[0] == 0xff && bs[1] == 0xfd && bs[2] == len[0] && bs[3] == len[1] && bs[4] == len[2] && bs[5] == len[3];
  }

  lemma {:induction false} NoLoneInMeaning(fs: seq<Frame>)
    requires AllSendable(fs)
    ensures Input(0xff) !in MeaningAll(fs)
    decreases |fs|
  {
    if fs != [] {
      NoLoneInMeaning(fs[1..]);
      if fs[0].Typed? {
        var bs := fs[0].bs;
        assert forall i | 0 <= i < |bs| :: ForwardOf(bs)[i] == Input(bs[i]) && bs[i] in bs;
      }
    }
  }

  /** No read ends between the two magic bytes of a frame. */
  ghost predicate KeepsMagic(fs: seq<Frame>, chunks: seq<seq<Byte>>) {
    forall k | 0 <= k <= |chunks| :: !SplitsMagic(fs, Boundary(chunks, k))
  }

  lemma BoundaryPrefix(fs: seq<Frame>, chunks: seq<seq<Byte>>, k: nat)
    requires AllSendable(fs) && Flatten(chunks) == EncodeAll(fs) && k <= |chunks|
    ensures EndsInLone(Flatten(chunks[..k])) == SplitsMagic(fs, Boundary(chunks, k))
  {
    FlattenCut(chunks, k);
    assert EncodeAll(fs)[..Boundary(chunks, k)] == Flatten(chunks[..k]);
    LoneIffSplitsMagic(fs, Boundary(chunks, k));
  }

  /** The first read that ends in a lone 0xff. */
  lemma {:induction false} FirstLone(chunks: seq<seq<Byte>>, k: nat) returns (m: nat)
    requires k <= |chunks| && EndsInLone(Flatten(chunks[..k]))
    ensures m <= k && EndsInLone(Flatten(chunks[..m]))
    ensures forall j | 0 <= j < m :: !EndsInLone(Flatten(chunks[..j]))
    decreases k
  {
    if j: nat :| j < k && EndsInLone(Flatten(chunks[..j])) {
      m := FirstLone(chunks, j);
    } else {
      m := k;
    }
  }

  /** A stream of frames, delivered in any reads: the server does exactly what the frames
      mean, in order, and forwards exactly the typed bytes, if and only if no read ends
      between the two magic bytes of a frame. */
  lemma DeliveryIsExact(fs: seq<Frame>, chunks: seq<seq<Byte>>)
    requires AllSendable(fs) && Flatten(chunks) == EncodeAll(fs)
    ensures DecodeReads([], chunks) == (MeaningAll(fs), []) <==> KeepsMagic(fs, chunks)
  {
    hide Decode, EndsInLone, SplitsMagic;
    assert chunks[..|chunks|] == chunks;
    forall k | 0 <= k <= |chunks|
      ensures EndsInLone(Flatten(chunks[..k])) == SplitsMagic(fs, Boundary(chunks, k))
    {
      BoundaryPrefix(fs, chunks, k);
    }
    if KeepsMagic(fs, chunks) {
      ReadsDecode(chunks, |chunks|);
      DecodeInvertsEncode(fs);
    } else {
      var k: nat :| k <= |chunks| && SplitsMagic(fs, Boundary(chunks, k));
      var m := FirstLone(chunks, k);
      ReadsDecode(chunks, m);
      LoneIsForwarded(Flatten(chunks[..m]));
      ReadsPrefix(chunks, m);
      NoLoneInMeaning(fs);
    }
  }
}
