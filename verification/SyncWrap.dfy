/** Synchronized-output markers and the tail tracker of internal/ttysync/syncwrap.go. */
module SyncWrap {
  import opened Bytes

  /** What BSU and ESU (DECSET/DECRST 2026) have in common. */
  const PREFIX: seq<Byte> := [0x1b, 0x5b, 0x3f, 0x32, 0x30, 0x32, 0x36]
  const BSU: seq<Byte> := PREFIX + [0x68]
  const ESU: seq<Byte> := PREFIX + [0x6c]

  /** A complete marker starts at `i`. */
  predicate MarkerAt(data: seq<Byte>, i: nat) {
    i + 8 <= |data| && data[i..i + 7] == PREFIX && (data[i + 7] == 0x68 || data[i + 7] == 0x6c)
  }

  /** The data without its complete markers. */
  function Strip(data: seq<Byte>): (out: seq<Byte>)
    ensures |out| <= |data|
    decreases |data|
  {
    if data == [] then []
    else if MarkerAt(data, 0) then Strip(data[8..])
    else [data[0]] + Strip(data[1..])
  }

  function Wrap(payload: seq<Byte>): seq<Byte> {
    BSU + payload + ESU
  }

  /** No complete marker lies across position `c`. */
  ghost predicate CutClear(data: seq<Byte>, c: nat) {
    forall i | 0 <= i < c < i + 8 :: !MarkerAt(data, i)
  }

  // ---- Stripping and cuts ----

  lemma MarkerShift(a: seq<Byte>, b: seq<Byte>, i: nat)
    ensures MarkerAt(a + b, |a| + i) == MarkerAt(b, i)
  {
    if i + 8 <= |b| {
      assert (a + b)[|a| + i..|a| + i + 7] == b[i..i + 7];
    }
  }

  lemma MarkerInFront(a: seq<Byte>, b: seq<Byte>, i: nat)
    requires i + 8 <= |a|
    ensures MarkerAt(a + b, i) == MarkerAt(a, i)
  {
    assert (a + b)[i..i + 7] == a[i..i + 7];
  }

  /** Stripping distributes over a cut that splits no marker. */
  lemma {:induction false} StripCut(a: seq<Byte>, b: seq<Byte>)
    requires CutClear(a + b, |a|)
    ensures Strip(a + b) == Strip(a) + Strip(b)
    decreases |a|
  {
    if a == [] {
      assert a + b == b;
    } else if |a| >= 8 && MarkerAt(a, 0) {
      MarkerInFront(a, b, 0);
      assert (a + b)[8..] == a[8..] + b;
      CutClearTail(a, b, 8);
      StripCut(a[8..], b);
    } else {
      if |a| >= 8 {
        MarkerInFront(a, b, 0);
      }
      assert !MarkerAt(a + b, 0);
      assert (a + b)[1..] == a[1..] + b;
      CutClearTail(a, b, 1);
      StripCut(a[1..], b);
    }
  }

  lemma CutClearTail(a: seq<Byte>, b: seq<Byte>, k: nat)
    requires CutClear(a + b, |a|) && k <= |a|
    ensures CutClear(a[k..] + b, |a| - k)
  {
    assert a + b == a[..k] + (a[k..] + b);
    forall i | 0 <= i < |a| - k < i + 8
      ensures !MarkerAt(a[k..] + b, i)
    {
      MarkerShift(a[..k], a[k..] + b, i);
      assert !MarkerAt(a + b, k + i);
    }
  }

  /** A marker starts with an escape and holds no other; all its bytes are ASCII. */
  lemma MarkerBytes(data: seq<Byte>, i: nat)
    requires MarkerAt(data, i)
    ensures data[i] == ESC
    ensures forall k {:trigger data[k]} | i < k < i + 8 :: data[k] != ESC && data[k] < 0x80
  {
    forall k | i <= k < i + 7
      ensures data[k] == PREFIX[k - i]
    {
      assert data[i..i + 7][k - i] == data[k];
    }
  }

  /** Markers do not overlap. */
  lemma MarkersApart(data: seq<Byte>, i: nat, j: nat)
    requires MarkerAt(data, i) && MarkerAt(data, j) && i < j
    ensures i + 8 <= j
  {
    MarkerBytes(data, i);
    MarkerBytes(data, j);
  }

  /** A cut through a leading marker. */
  lemma StripSplitFirst(a: seq<Byte>, b: seq<Byte>)
    requires 0 < |a| < 8 && MarkerAt(a + b, 0)
    ensures |Strip(a)| + |Strip(b)| == |Strip(a + b)| + 8
  {
    var k := 8 - |a|;
    MarkerBytes(a + b, 0);
    assert (a + b)[8..] == b[k..];
    assert forall j | 0 <= j < k :: b[j] == (a + b)[|a| + j];
    NoMarkerKept(a);
    NoStartKept(b, k, b[..k]);
  }

  /** A cut through a marker leaves both halves in: eight bytes more come out. */
  lemma {:induction false} StripSplit(a: seq<Byte>, b: seq<Byte>, i: nat)
    requires i < |a| < i + 8 && MarkerAt(a + b, i)
    ensures |Strip(a)| + |Strip(b)| == |Strip(a + b)| + 8
    decreases |a|
  {
    hide MarkerAt;
    if i == 0 {
      StripSplitFirst(a, b);
      return;
    }
    var k := if MarkerAt(a + b, 0) then 8 else 1;
    if k == 8 {
      MarkersApart(a + b, 0, i);
    }
    if |a| >= 8 {
      MarkerInFront(a, b, 0);
    }
    ShortHasNoMarker(a);
    assert (a + b)[k..] == a[k..] + b;
    assert a[..k] + (a[k..] + b) == a + b;
    MarkerShift(a[..k], a[k..] + b, i - k);
    StripSplit(a[k..], b, i - k);
  }

  lemma ShortHasNoMarker(a: seq<Byte>)
    ensures MarkerAt(a, 0) ==> |a| >= 8
    ensures MarkerAt(a, 0) ==> a[0] == ESC
  {
    if MarkerAt(a, 0) {
      assert a[0..7][0] == a[0];
    }
  }

  /** Fewer than eight bytes hold no marker. */
  lemma {:induction false} NoMarkerKept(a: seq<Byte>)
    requires |a| < 8
    ensures Strip(a) == a
    decreases |a|
  {
    if a != [] {
      NoMarkerKept(a[1..]);
    }
  }

  /** A marker is one of the two byte strings that a wrapped write begins and ends with. */
  lemma MarkerIsEither(data: seq<Byte>, i: nat)
    ensures MarkerAt(data, i) <==> i + 8 <= |data| && (data[i..i + 8] == BSU || data[i..i + 8] == ESU)
  {
    if i + 8 <= |data| {
      assert data[i..i + 8] == data[i..i + 7] + [data[i + 7]];
      assert data[i..i + 8][..7] == data[i..i + 7] && data[i..i + 8][7] == data[i + 7];
      assert BSU[..7] == PREFIX && ESU[..7] == PREFIX;
    }
  }

  /** A marker alone leaves nothing; data without markers is left as it is. With the law of cuts
      this says all of what stripping does. */
  lemma StripOfMarkers(data: seq<Byte>)
    ensures Strip(BSU) == [] && Strip(ESU) == []
    ensures (forall i | 0 <= i < |data| :: !MarkerAt(data, i)) ==> Strip(data) == data
  {
    assert BSU[0..8] == BSU && ESU[0..8] == ESU;
    MarkerIsEither(BSU, 0);
    MarkerIsEither(ESU, 0);
    assert BSU[8..] == [] && ESU[8..] == [];
    hide MarkerAt;
    if forall i | 0 <= i < |data| :: !MarkerAt(data, i) {
      UnmarkedKept(data);
    }
  }

  lemma {:induction false} UnmarkedKept(data: seq<Byte>)
    requires forall i | 0 <= i < |data| :: !MarkerAt(data, i)
    ensures Strip(data) == data
    decreases |data|
  {
    hide MarkerAt;
    if data != [] {
      forall i | 0 <= i < |data[1..]|
        ensures !MarkerAt(data[1..], i)
      {
        MarkerShift(data[..1], data[1..], i);
        assert data[..1] + data[1..] == data;
        assert !MarkerAt(data, i + 1);
      }
      UnmarkedKept(data[1..]);
    }
  }

  /** Bytes in front of which no escape starts are all kept. */
  lemma {:induction false} NoStartKept(b: seq<Byte>, k: nat, front: seq<Byte>)
    requires k <= |b| && b[..k] == front && ESC !in front
    ensures Strip(b) == front + Strip(b[k..])
    decreases k
  {
    if k > 0 {
      assert b[0] == front[0];
      ShortHasNoMarker(b);
      assert b[1..][..k - 1] == front[1..];
      NoStartKept(b[1..], k - 1, front[1..]);
      assert b[1..][k - 1..] == b[k..];
    } else {
      assert b[0..] == b;
    }
  }

  // ---- Stripping as the code does it ----

  /** The rest may still become a marker. */
  predicate IsCarry(rest: seq<Byte>) {
    1 <= |rest| <= 7 && rest == PREFIX[..|rest|]
  }

  lemma MarkerDrop(data: seq<Byte>, i: nat)
    requires i <= |data|
    ensures MarkerAt(data[i..], 0) == MarkerAt(data, i)
  {
    assert data[..i] + data[i..] == data;
    MarkerShift(data[..i], data[i..], 0);
  }

  lemma StripAt(data: seq<Byte>, i: nat)
    requires i < |data|
    ensures MarkerAt(data, i) ==> i + 8 <= |data|
    ensures Strip(data[i..]) == if MarkerAt(data, i) then Strip(data[i + 8..]) else [data[i]] + Strip(data[i + 1..])
  {
    MarkerDrop(data, i);
    ShortHasNoMarker(data[i..]);
    hide MarkerAt;
    assert data[i..][1..] == data[i + 1..];
    assert MarkerAt(data, i) ==> data[i..][8..] == data[i + 8..];
  }

  /** Index of the next escape from `i` on, or the end. */
  method NextEscape(data: seq<Byte>, i: nat) returns (j: nat)
    requires i <= |data|
    ensures i <= j <= |data| && ESC !in data[i..j]
    ensures j < |data| ==> data[j] == ESC
  {
    j := i;
    while j < |data| && data[j] != ESC
      invariant i <= j <= |data| && ESC !in data[i..j]
    {
      j := j + 1;
    }
  }

  lemma CarryRule(data: seq<Byte>, i: nat)
    requires i < |data|
    ensures IsCarry(data[i..]) <==> |data| - i < 8 && data[i..] == PREFIX[..|data| - i]
    ensures IsCarry(data[i..]) ==> data[i] == ESC
  {
  }

  lemma NoCarryInside(data: seq<Byte>, i: nat, j: nat)
    requires i <= j <= |data| && ESC !in data[i..j]
    ensures forall k | i <= k < j :: !IsCarry(data[k..])
  {
    forall k | i <= k < j
      ensures !IsCarry(data[k..])
    {
      assert data[i..j][k - i] == data[k];
      CarryRule(data, k);
    }
  }

  lemma NoCarryInMarker(data: seq<Byte>, i: nat)
    requires MarkerAt(data, i)
    ensures i + 8 <= |data| && forall k | i <= k < i + 8 :: !IsCarry(data[k..])
  {
    MarkerBytes(data, i);
    forall k | i <= k < i + 8
      ensures !IsCarry(data[k..])
    {
      CarryRule(data, k);
    }
  }

  /** Behind the start of a carry there is no escape, so no other carry. */
  lemma CarryFound(data: seq<Byte>, i: nat)
    requires i < |data| && |data| - i < 8 && data[i..] == PREFIX[..|data| - i]
    ensures IsCarry(data[i..]) && forall k | i < k < |data| :: !IsCarry(data[k..])
  {
    forall k | i < k < |data|
      ensures !IsCarry(data[k..])
    {
      assert data[k] == data[i..][k - i] == PREFIX[k - i];
      CarryRule(data, k);
    }
  }

  /** Complete markers removed; a beginning of a marker at the very end is handed back, always
      and in full. */
  method StripSyncMarkers(data: seq<Byte>) returns (payload: seq<Byte>, carry: seq<Byte>)
    ensures payload + carry == Strip(data)
    ensures carry == [] || (IsCarry(carry) && |carry| <= |data| && carry == data[|data| - |carry|..])
    ensures forall j | 0 <= j < |data| && IsCarry(data[j..]) :: carry == data[j..]
  {
    hide MarkerAt, Strip, IsCarry;
    payload, carry := [], [];
    var i := 0;
    assert data[0..] == data;
    while i < |data|
      invariant i <= |data|
      invariant payload + Strip(data[i..]) == Strip(data)
      invariant forall j | 0 <= j < i :: !IsCarry(data[j..])
    {
      StripAt(data, i);
      if data[i] != ESC {
        var j := NextEscape(data, i);
        NoCarryInside(data, i, j);
        assert data[i..][..j - i] == data[i..j] && data[i..][j - i..] == data[j..];
        NoStartKept(data[i..], j - i, data[i..j]);
        assert payload + (data[i..j] + Strip(data[j..])) == (payload + data[i..j]) + Strip(data[j..]);
        payload := payload + data[i..j];
        i := j;
      } else if MarkerAt(data, i) {
        NoCarryInMarker(data, i);
        i := i + 8;
      } else if |data| - i < 8 && data[i..] == PREFIX[..|data| - i] {
        carry := data[i..];
        NoMarkerKept(carry);
        CarryFound(data, i);
        return;
      } else {
        assert !IsCarry(data[i..]) by { CarryRule(data, i); }
        assert payload + ([data[i]] + Strip(data[i + 1..])) == (payload + [data[i]]) + Strip(data[i + 1..]);
        payload := payload + [data[i]];
        i := i + 1;
      }
    }
    assert data[|data|..] == [];
    NoMarkerKept([]);
  }

  // ---- The tail tracker ----

  datatype AnsiState = Ground | Esc | Csi | Osc | OscEsc | Dcs | DcsEsc

  /** `seqStart` is the buffer offset where the unfinished sequence or rune began, or -1. */
  datatype Tracker = Tracker(state: AnsiState, utf8rem: nat, seqStart: int)

  const FRESH := Tracker(Ground, 0, -1)

  predicate ContinuesCsi(b: Byte) {
    IsDigit(b) || b == SEMICOLON || b == 0x3f || b == 0x3a || 0x20 <= b <= 0x2f
  }

  /** Continuation bytes a UTF-8 lead byte asks for; 0 when it asks for none. */
  function RuneRemaining(b: Byte): nat {
    if 0xc0 <= b < 0xe0 then 1 else if 0xe0 <= b < 0xf0 then 2 else if 0xf0 <= b < 0xf8 then 3 else 0
  }

  /** One byte at offset `off`, outside a rune. */
  function TrackByte(t: Tracker, b: Byte, off: nat): Tracker {
    match t.state
    case Ground =>
      if b == ESC then t.(state := Esc, seqStart := off)
      else if RuneRemaining(b) > 0 then t.(utf8rem := RuneRemaining(b), seqStart := off)
      else t
    case Esc =>
      if b == 0x5b then t.(state := Csi)
      else if b == 0x5d then t.(state := Osc)
      else if b == 0x50 then t.(state := Dcs)
      else if b == ESC then t.(seqStart := off)
      else t.(state := Ground, seqStart := -1)
    case Csi => if ContinuesCsi(b) then t else t.(state := Ground, seqStart := -1)
    case Osc =>
      if b == 0x07 then t.(state := Ground, seqStart := -1) else if b == ESC then t.(state := OscEsc) else t
    case OscEsc => if b == 0x5c then t.(state := Ground, seqStart := -1) else t.(state := Osc)
    case Dcs =>
      if b == 0x07 then t.(state := Ground, seqStart := -1) else if b == ESC then t.(state := DcsEsc) else t
    case DcsEsc => if b == 0x5c then t.(state := Ground, seqStart := -1) else t.(state := Dcs)
  }

  /** One byte appended to the buffer at offset `off`. */
  function Track(t: Tracker, b: Byte, off: nat): Tracker {
    if t.utf8rem > 0 then
      if 0x80 <= b < 0xc0 then
        if t.utf8rem == 1 then t.(utf8rem := 0, seqStart := -1) else t.(utf8rem := t.utf8rem - 1)
      else TrackByte(t.(utf8rem := 0, seqStart := -1), b, off)
    else TrackByte(t, b, off)
  }

  /** A new tracker after the whole of `bs`. */
  function Tracked(bs: seq<Byte>): Tracker {
    if bs == [] then FRESH else Track(Tracked(bs[..|bs| - 1]), bs[|bs| - 1], |bs| - 1)
  }

  /** The tracker after `data`, appended at offset `base`. */
  function TrackMore(t: Tracker, data: seq<Byte>, base: nat): Tracker
    decreases |data|
  {
    if data == [] then t else TrackMore(Track(t, data[0], base), data[1..], base + 1)
  }

  /** How much of a buffer may be emitted: up to the unfinished sequence, if there is one. */
  function SplitOf(t: Tracker, bufLen: nat): nat {
    if t.seqStart < 0 || t.seqStart > bufLen then bufLen else t.seqStart
  }

  function Split(bs: seq<Byte>): nat {
    SplitOf(Tracked(bs), |bs|)
  }

  class TailTracker {
    var state: AnsiState
    var utf8rem: nat
    var seqStart: int

    function Abs(): Tracker
      reads this
    {
      Tracker(state, utf8rem, seqStart)
    }

    constructor ()
      ensures Abs() == FRESH
    {
      state, utf8rem, seqStart := Ground, 0, -1;
    }

    method Feed(b: Byte, off: nat)
      modifies this
      ensures Abs() == Track(old(Abs()), b, off)
    {
      if utf8rem > 0 {
        if 0x80 <= b < 0xc0 {
          utf8rem := utf8rem - 1;
          if utf8rem == 0 {
            seqStart := -1;
          }
          return;
        }
        utf8rem := 0;
        seqStart := -1;
      }
      match state {
        case Ground =>
          if b == ESC {
            state, seqStart := Esc, off;
          } else if RuneRemaining(b) > 0 {
            utf8rem, seqStart := RuneRemaining(b), off;
          }
        case Esc =>
          match b {
            case 0x5b => state := Csi;
            case 0x5d => state := Osc;
            case 0x50 => state := Dcs;
            case 0x1b => seqStart := off;
            case _ => state, seqStart := Ground, -1;
          }
        case Csi =>
          if !ContinuesCsi(b) {
            state, seqStart := Ground, -1;
          }
        case Osc =>
          if b == 0x07 {
            state, seqStart := Ground, -1;
          } else if b == ESC {
            state := OscEsc;
          }
        case OscEsc =>
          if b == 0x5c {
            state, seqStart := Ground, -1;
          } else {
            state := Osc;
          }
        case Dcs =>
          if b == 0x07 {
            state, seqStart := Ground, -1;
          } else if b == ESC {
            state := DcsEsc;
          }
        case DcsEsc =>
          if b == 0x5c {
            state, seqStart := Ground, -1;
          } else {
            state := Dcs;
          }
      }
    }

    /** Feeds `data`, which is being appended at offset `base`. */
    method FeedAll(data: seq<Byte>, base: nat)
      modifies this
      ensures Abs() == TrackMore(old(Abs()), data, base)
    {
      hide Track;
      assert data[0..] == data;
      for i := 0 to |data|
        invariant TrackMore(Abs(), data[i..], base + i) == TrackMore(old(Abs()), data, base)
      {
        assert data[i..][1..] == data[i + 1..];
        Feed(data[i], base + i);
      }
    }

    function SplitAt(bufLen: nat): nat
      reads this
    {
      SplitOf(Abs(), bufLen)
    }

    /** The buffer lost its first `keepFrom` bytes. */
    method Rebase(keepFrom: nat)
      modifies `seqStart
      ensures Abs() == Rebased(old(Abs()), keepFrom)
    {
      if seqStart >= 0 {
        seqStart := seqStart - keepFrom;
        if seqStart < 0 {
          seqStart := 0;
        }
      }
    }

    method Reset()
      modifies this
      ensures Abs() == FRESH
    {
      state, utf8rem, seqStart := Ground, 0, -1;
    }
  }

  function Rebased(t: Tracker, keepFrom: nat): Tracker {
    if t.seqStart < 0 then t else t.(seqStart := if t.seqStart - keepFrom < 0 then 0 else t.seqStart - keepFrom)
  }

  lemma TrackedAppend(bs: seq<Byte>, b: Byte)
    ensures Tracked(bs + [b]) == Track(Tracked(bs), b, |bs|)
  {
    assert (bs + [b])[..|bs|] == bs;
  }

  /** Feeding piece by piece is feeding at once. */
  lemma {:induction false} TrackMoreTracked(bs: seq<Byte>, data: seq<Byte>)
    ensures TrackMore(Tracked(bs), data, |bs|) == Tracked(bs + data)
    decreases |data|
  {
    hide Track;
    if data == [] {
      assert bs + data == bs;
    } else {
      TrackedAppend(bs, data[0]);
      TrackMoreTracked(bs + [data[0]], data[1..]);
      assert bs + [data[0]] + data[1..] == bs + data;
    }
  }

  // ---- What the tracker knows ----

  /** A start offset is known exactly while a sequence or a rune is unfinished; it lies in
      the buffer, on an escape or a rune's lead byte. */
  ghost predicate TrackerOk(t: Tracker, bs: seq<Byte>) {
    && (t.seqStart >= 0 <==> t.state != Ground || t.utf8rem > 0)
    && (t.utf8rem > 0 ==> t.state == Ground)
    && -1 <= t.seqStart < |bs|
    && (t.seqStart >= 0 ==> bs[t.seqStart] == ESC || RuneRemaining(bs[t.seqStart]) > 0)
  }

  lemma {:induction false} TrackedOk(bs: seq<Byte>)
    ensures TrackerOk(Tracked(bs), bs)
    decreases |bs|
  {
    if bs != [] {
      TrackedOk(bs[..|bs| - 1]);
    }
  }

  /** The same tracker with all offsets moved by `c`. */
  function Shifted(t: Tracker, c: nat): Tracker {
    if t.seqStart < 0 then t else t.(seqStart := t.seqStart + c)
  }

  lemma TrackShifted(t: Tracker, b: Byte, off: nat, c: nat)
    requires t.seqStart >= -1
    ensures Track(Shifted(t, c), b, off + c) == Shifted(Track(t, b, off), c)
  {
  }

  /** Forgetting the bytes in front of `c` changes nothing but the offsets. */
  ghost predicate Detached(bs: seq<Byte>, c: nat) {
    c <= |bs| && Tracked(bs) == Shifted(Tracked(bs[c..]), c)
  }

  lemma DetachedOne(bs: seq<Byte>, c: nat, b: Byte)
    requires Detached(bs, c)
    ensures Detached(bs + [b], c)
  {
    hide Track;
    assert (bs + [b])[c..] == bs[c..] + [b];
    TrackedAppend(bs, b);
    TrackedAppend(bs[c..], b);
    TrackedOk(bs[c..]);
    TrackShifted(Tracked(bs[c..]), b, |bs| - c, c);
  }

  /** Once detached, a suffix stays detached whatever is appended. */
  lemma {:induction false} DetachedAppend(bs: seq<Byte>, c: nat, more: seq<Byte>)
    requires Detached(bs, c)
    ensures Detached(bs + more, c)
    decreases |more|
  {
    hide Detached;
    if more == [] {
      assert bs + more == bs;
    } else {
      DetachedAppend(bs, c, more[..|more| - 1]);
      DetachedOne(bs + more[..|more| - 1], c, more[|more| - 1]);
      assert bs + more == bs + more[..|more| - 1] + [more[|more| - 1]];
    }
  }

  /** At the end of a finished sequence everything before can be forgotten. */
  lemma DetachedAtGround(bs: seq<Byte>)
    requires Tracked(bs).seqStart < 0
    ensures Tracked(bs) == FRESH && Detached(bs, |bs|)
  {
    TrackedOk(bs);
    assert bs[|bs|..] == [];
  }

  /** A tracker whose sequence starts at its last byte is a new tracker after that byte. */
  lemma StartsAtLast(t: Tracker, b: Byte, off: nat)
    requires t.seqStart < off && t.seqStart >= -1 && (t.utf8rem > 0 ==> t.state == Ground)
    requires t.seqStart < 0 ==> t.state == Ground && t.utf8rem == 0
    requires Track(t, b, off).seqStart == off
    ensures Track(t, b, off) == Shifted(Track(FRESH, b, 0), off)
  {
  }

  /** So can everything before an unfinished sequence: the tracker after the kept tail is
      the one a new tracker would be in. */
  lemma {:induction false} DetachedAtStart(bs: seq<Byte>)
    requires Tracked(bs).seqStart >= 0
    ensures Detached(bs, Tracked(bs).seqStart) && Tracked(bs[Tracked(bs).seqStart..]).seqStart == 0
    decreases |bs|
  {
    hide TrackByte;
    TrackedOk(bs);
    var n := |bs| - 1;
    var k := Tracked(bs).seqStart;
    var before := bs[..n];
    TrackedOk(before);
    assert bs == before + [bs[n]];
    if k == n {
      assert bs[n..] == [] + [bs[n]];
      TrackedAppend([], bs[n]);
      StartsAtLast(Tracked(before), bs[n], n);
    } else {
      StartStays(Tracked(before), bs[n], n);
      DetachedAtStart(before);
      DetachedAppend(before, k, [bs[n]]);
    }
  }

  lemma StartStays(t: Tracker, b: Byte, off: nat)
    requires 0 <= Track(t, b, off).seqStart < off
    requires t.seqStart < off
    ensures Track(t, b, off).seqStart == t.seqStart
  {
  }

  /** After a flush that keeps only the unfinished tail, the rebased tracker is the one
      that a new tracker reaches on the kept bytes. */
  lemma RebaseIsFresh(bs: seq<Byte>)
    ensures Split(bs) <= |bs|
    ensures Rebased(Tracked(bs), Split(bs)) == Tracked(bs[Split(bs)..])
    ensures bs[Split(bs)..] != [] ==> Tracked(bs[Split(bs)..]).seqStart == 0
    ensures Detached(bs, Split(bs))
  {
    TrackedOk(bs);
    if Tracked(bs).seqStart < 0 {
      DetachedAtGround(bs);
      assert bs[|bs|..] == [];
    } else {
      DetachedAtStart(bs);
    }
  }

  /** The emitted part ends with every sequence and rune of the tracker's grammar finished,
      or on an escape that a second escape made void. */
  lemma {:induction false} HeadEndsClean(bs: seq<Byte>)
    ensures var h := Tracked(bs[..Split(bs)]);
      && h.state in {Ground, Esc}
      && (h.state == Esc ==> Split(bs) < |bs| && bs[Split(bs)] == ESC)
      && (h.utf8rem > 0 ==> Split(bs) < |bs| && !(0x80 <= bs[Split(bs)] < 0xc0))
    decreases |bs|
  {
    TrackedOk(bs);
    if Tracked(bs).seqStart < 0 {
      assert bs[..|bs|] == bs;
    } else {
      var n := |bs| - 1;
      var before := bs[..n];
      TrackedOk(before);
      if Tracked(bs).seqStart < n {
        HeadEndsClean(before);
        assert before[..Split(before)] == bs[..Split(bs)];
      }
    }
  }

  // ---- When a head is clean ----

  /** Byte `n` begins a sequence or rune while another one is unfinished. */
  ghost predicate Restarts(data: seq<Byte>, n: nat) {
    n < |data| && Tracked(data[..n]).seqStart >= 0 && Tracked(data[..n + 1]).seqStart == n
  }

  /** Where the tail begins, a sequence or rune begins. */
  lemma {:induction false} StartsAtSplit(bs: seq<Byte>)
    requires Split(bs) < |bs|
    ensures Tracked(bs[..Split(bs) + 1]).seqStart == Split(bs)
    decreases |bs|
  {
    TrackedOk(bs);
    var n := |bs| - 1;
    var before := bs[..n];
    if Tracked(bs).seqStart == n {
      assert bs[..n + 1] == bs;
    } else {
      TrackedOk(before);
      StartStays(Tracked(before), bs[n], n);
      StartsAtSplit(before);
      assert before[..Split(bs) + 1] == bs[..Split(bs) + 1];
    }
  }

  /** What a flush emits ends with nothing unfinished, unless the tail begins inside a
      sequence or rune. */
  lemma HeadIsExact(bs: seq<Byte>)
    ensures Split(bs) <= |bs|
    ensures Tracked(bs[..Split(bs)]) == FRESH <==> !Restarts(bs, Split(bs))
  {
    hide Track;
    var k := Split(bs);
    TrackedOk(bs);
    TrackedOk(bs[..k]);
    if k < |bs| {
      StartsAtSplit(bs);
    } else {
      assert bs[..k] == bs;
    }
  }

  lemma RestartsInPrefix(data: seq<Byte>, n: nat, k: nat)
    requires n <= |data| && Restarts(data[..n], k)
    ensures Restarts(data, k)
  {
    assert data[..n][..k] == data[..k] && data[..n][..k + 1] == data[..k + 1];
  }

  /** The prefix that ends in the restarting byte: it alone is the tail, and the head is not
      clean. */
  lemma RestartCuts(data: seq<Byte>, n: nat)
    requires Restarts(data, n)
    ensures Split(data[..n + 1]) == n && n >= 1 && Tracked(data[..n]) != FRESH
  {
    hide Track;
    TrackedOk(data[..n + 1]);
  }

  /** Wherever a flush may cut the stream it is clean there, if and only if no byte begins a
      sequence or rune inside another. */
  lemma CleanIffNoRestart(data: seq<Byte>)
    ensures (forall n | 0 <= n <= |data| :: CleanAfter(data, n)) <==> (forall n | 0 <= n < |data| :: !Restarts(data, n))
  {
    if n: nat :| n < |data| && Restarts(data, n) {
      RestartCuts(data, n);
      assert data[..n + 1][..n] == data[..n];
      assert !CleanAfter(data, n + 1);
    } else {
      forall n | 0 <= n <= |data|
        ensures CleanAfter(data, n)
      {
        HeadIsExact(data[..n]);
        if Restarts(data[..n], Split(data[..n])) {
          RestartsInPrefix(data, n, Split(data[..n]));
        }
      }
    }
  }

  /** Of the first `n` bytes, a flush emits a head that ends with nothing unfinished. */
  ghost predicate CleanAfter(data: seq<Byte>, n: nat) {
    n <= |data| && Split(data[..n]) <= n && Tracked(data[..n][..Split(data[..n])]) == FRESH
  }

  /** The bytes that do it: an escape right behind an escape that began a sequence, or the
      first byte of a sequence or rune where an unfinished rune should go on. */
  lemma RestartsInBytes(data: seq<Byte>, n: nat)
    requires n < |data|
    ensures var t, b := Tracked(data[..n]), data[n];
      Restarts(data, n) <==>
      || (t.utf8rem == 0 && t.state == Esc && b == ESC)
      || (t.utf8rem > 0 && !(0x80 <= b < 0xc0) && (b == ESC || RuneRemaining(b) > 0))
  {
    TrackedOk(data[..n]);
    assert data[..n + 1] == data[..n] + [data[n]];
    TrackedAppend(data[..n], data[n]);
    hide Tracked;
  }

  lemma IntoEscape(t: Tracker, b: Byte, off: nat)
    requires t.utf8rem > 0 ==> t.state == Ground
    ensures Track(t, b, off).state == Esc <==> b == ESC && t.state in {Ground, Esc}
  {
  }

  lemma StartsHere(t: Tracker, b: Byte, off: nat)
    requires t.seqStart < off && Track(t, b, off).seqStart == off
    ensures t.utf8rem == 0 ==> t.state == Ground || (t.state == Esc && b == ESC)
  {
  }

  lemma EscapeInString(t: Tracker, off: nat)
    requires t.utf8rem > 0 ==> t.state == Ground
    ensures t.state in {Osc, OscEsc, Dcs, DcsEsc} ==> Track(t, ESC, off).state in {Osc, OscEsc, Dcs, DcsEsc}
    ensures Track(t, ESC, off).utf8rem == 0
  {
  }

  /** The first kind: two escapes, the first of them not the end of a control sequence. */
  lemma VoidEscape(bs: seq<Byte>)
    requires Split(bs) < |bs|
    ensures var k := Split(bs);
      Tracked(bs[..k]).state == Esc <==>
      k >= 1 && bs[k] == ESC && bs[k - 1] == ESC && Tracked(bs[..k - 1]).state != Csi
  {
    hide Track;
    var k := Split(bs);
    TrackedOk(bs);
    StartsAtSplit(bs);
    TrackedOk(bs[..k]);
    assert bs[..k + 1] == bs[..k] + [bs[k]];
    TrackedAppend(bs[..k], bs[k]);
    StartsHere(Tracked(bs[..k]), bs[k], k);
    if k >= 1 {
      TrackedOk(bs[..k - 1]);
      assert bs[..k] == bs[..k - 1] + [bs[k - 1]];
      TrackedAppend(bs[..k - 1], bs[k - 1]);
      IntoEscape(Tracked(bs[..k - 1]), bs[k - 1], k - 1);
      EscapeInString(Tracked(bs[..k - 1]), k - 1);
    } else {
      assert bs[..k] == [];
    }
    hide Tracked;
  }

  /** Then the head ends in a beginning of a marker: what the stripper hands back there is the
      void escape, not nothing. */
  lemma VoidEscapeIsCarried(bs: seq<Byte>)
    requires Split(bs) < |bs| && Tracked(bs[..Split(bs)]).state == Esc
    ensures var k := Split(bs); k >= 1 && IsCarry(bs[..k][k - 1..]) && bs[..k][k - 1..] == [ESC]
  {
    VoidEscape(bs);
    hide Tracked;
    var k := Split(bs);
    assert bs[..k][k - 1..] == [ESC] == PREFIX[..1];
  }

  /** An input that does it. */
  lemma TwoEscapesRestart()
    ensures Restarts([0x61, ESC, ESC], 2)
  {
    var bs := [0x61, ESC, ESC];
    assert bs[..1] == [0x61] && bs[..2][..1] == bs[..1] && bs[..3] == bs && bs[..2] == [0x61, ESC];
    assert [0x61 as Byte][..0] == [];
    assert Tracked(bs[..1]) == FRESH;
    assert Tracked(bs[..2]) == Tracker(Esc, 0, 1);
  }

  /** The unfinished tail only ever moves forward. */
  lemma SplitGrows(bs: seq<Byte>, more: seq<Byte>)
    ensures Split(bs) <= Split(bs + more)
    decreases |more|
  {
    if more == [] {
      assert bs + more == bs;
    } else {
      var n := |more| - 1;
      SplitGrows(bs, more[..n]);
      var before := bs + more[..n];
      assert bs + more == before + [more[n]];
      TrackedAppend(before, more[n]);
      TrackedOk(before);
    }
  }

  // ---- Permitted cuts and markers ----

  /** No complete marker begins where the tracker takes its escape for the end of another
      control sequence. */
  ghost predicate MarkersSeen(data: seq<Byte>) {
    forall i | 0 <= i < |data| && MarkerAt(data, i) :: Tracked(data[..i]).state != Csi
  }

  /** States the tracker can be in after `j` bytes of a marker. */
  ghost predicate InMarker(t: Tracker, j: nat) {
    && t.utf8rem == 0
    && (if j == 1 then t.state in {Esc, OscEsc, DcsEsc, Osc, Dcs} else t.state in {Csi, Osc, Dcs})
  }

  lemma InMarkerStep(t: Tracker, j: nat, off: nat)
    requires 1 <= j <= 7 && if j == 1 then t.state != Csi else InMarker(t, j - 1)
    ensures InMarker(Track(t, PREFIX[j - 1], off), j)
  {
  }

  lemma PrefixStep(data: seq<Byte>, i: nat, j: nat)
    requires 1 <= j <= 7 && i + j <= |data| && data[i..i + j] == PREFIX[..j]
    ensures data[i + j - 1] == PREFIX[j - 1] && data[i..i + j - 1] == PREFIX[..j - 1]
  {
    var part := data[i..i + j];
    assert part[j - 1] == data[i + j - 1];
    assert part[..j - 1] == data[i..i + j - 1];
    assert PREFIX[..j][j - 1] == PREFIX[j - 1] && PREFIX[..j][..j - 1] == PREFIX[..j - 1];
  }

  lemma {:induction false} MarkerHolds(data: seq<Byte>, i: nat, j: nat)
    requires 1 <= j <= 7 && i + j <= |data| && data[i..i + j] == PREFIX[..j]
    requires Tracked(data[..i]).state != Csi
    ensures InMarker(Tracked(data[..i + j]), j)
    decreases j
  {
    hide Track, Tracked, InMarker;
    var before := data[..i + j - 1];
    PrefixStep(data, i, j);
    assert data[..i + j] == before + [PREFIX[j - 1]];
    TrackedAppend(before, PREFIX[j - 1]);
    if j > 1 {
      MarkerHolds(data, i, j - 1);
    }
    InMarkerStep(Tracked(before), j, |before|);
  }

  /** A permitted cut behind the start of a marker is behind its end, when the tracker
      saw the marker begin. */
  lemma CutPassesMarker(data: seq<Byte>, n: nat, i: nat)
    requires n <= |data| && MarkersSeen(data) && MarkerAt(data, i)
    requires i < Split(data[..n])
    ensures i + 8 <= Split(data[..n])
  {
    hide TrackByte;
    var sofar := data[..n];
    var c := Split(sofar);
    var j := if c - i <= 7 then c - i else 7;
    assert c <= n && (i + j == n ==> data[..i + j] == sofar);
    TrackedOk(sofar);
    MarkerBytes(data, i);
    assert Tracked(sofar).seqStart >= 0 ==> sofar[c] == data[c];
    assert data[i..i + 7][..j] == data[i..i + j];
    MarkerHolds(data, i, j);
  }

  /** A permitted cut of the bytes so far never splits a marker of the whole stream. */
  lemma PermittedCutIsClear(data: seq<Byte>, n: nat)
    requires n <= |data| && MarkersSeen(data)
    ensures CutClear(data, Split(data[..n]))
  {
    forall i | 0 <= i < Split(data[..n]) < i + 8
      ensures !MarkerAt(data, i)
    {
      if MarkerAt(data, i) {
        CutPassesMarker(data, n, i);
      }
    }
  }
}
