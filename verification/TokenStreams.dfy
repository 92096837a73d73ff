/** The tail tracker against a grammar of its own: streams of runes and of control sequences,
    escapes and strings of ECMA-48 (section 5.4 and 5.6). */
module TokenStreams {
  import opened Bytes
  import opened Utf8
  import opened SyncWrap
  import opened Pump
  import opened PumpTheorems

  /** `Control` is a control sequence; `Operating` and `Device` are OSC and DCS strings, ended
      by BEL or by ESC \; `Escaped` is a two-byte escape. */
  datatype Token =
    | Char(r: Rune)
    | Control(parm: seq<Byte>, final: Byte)
    | Operating(body: seq<Byte>, bell: bool)
    | Device(body: seq<Byte>, bell: bool)
    | Escaped(c: Byte)

  const BELL: Byte := 0x07
  const STRING_END: seq<Byte> := [ESC, 0x5c]

  /** Parameter and intermediate bytes: digits, colon, semicolon, question mark, and space to
      solidus. */
  predicate IsInner(b: Byte) {
    0x30 <= b <= 0x3b || b == 0x3f || 0x20 <= b <= 0x2f
  }

  predicate Legal(t: Token) {
    match t
    case Char(r) => r != 0x1b
    case Control(parm, final) => (forall i | 0 <= i < |parm| :: IsInner(parm[i])) && 0x40 <= final <= 0x7e
    case Operating(body, _) => BELL !in body && ESC !in body
    case Device(body, _) => BELL !in body && ESC !in body
    case Escaped(c) => c !in {0x5b, 0x5d, 0x50, 0x1b}
  }

  function Ending(bell: bool): seq<Byte> {
    if bell then [BELL] else STRING_END
  }

  function TokenBytes(t: Token): (bs: seq<Byte>)
    ensures |bs| >= 1
  {
    match t
    case Char(r) => Encode(r)
    case Control(parm, final) => [ESC, 0x5b] + parm + [final]
    case Operating(body, bell) => [ESC, 0x5d] + body + Ending(bell)
    case Device(body, bell) => [ESC, 0x50] + body + Ending(bell)
    case Escaped(c) => [ESC, c]
  }

  // ---- One token ----

  /** Nothing of `bs` may be emitted until it is complete, and then all of it. */
  ghost predicate HeldWhole(bs: seq<Byte>) {
    Tracked(bs) == FRESH && forall k | 0 < k < |bs| :: Tracked(bs[..k]).seqStart == 0
  }

  lemma TrackedOne(b: Byte)
    ensures Tracked([b]) == Track(FRESH, b, 0)
  {
    assert [b][..0] == [];
    assert Tracked([]) == FRESH;
  }

  lemma TrackedTwo(a: Byte, b: Byte)
    ensures Tracked([a, b]) == Track(Track(FRESH, a, 0), b, 1)
  {
    hide Track;
    TrackedOne(a);
    assert [a, b] == [a] + [b];
    TrackedAppend([a], b);
  }

  /** The state behind an introducer stays while the inside goes on. */
  lemma {:induction false} InsideHolds(c: Byte, inside: seq<Byte>)
    requires c in {0x5b, 0x5d, 0x50}
    requires forall i | 0 <= i < |inside| ::
      if c == 0x5b then ContinuesCsi(inside[i]) else inside[i] != BELL && inside[i] != ESC
    ensures Tracked([ESC, c] + inside)
         == Tracker(if c == 0x5b then Csi else if c == 0x5d then Osc else Dcs, 0, 0)
    decreases |inside|
  {
    hide Tracked;
    if inside == [] {
      TrackedTwo(ESC, c);
      assert [ESC, c] + inside == [ESC, c];
    } else {
      var n := |inside| - 1;
      InsideHolds(c, inside[..n]);
      assert [ESC, c] + inside == [ESC, c] + inside[..n] + [inside[n]];
      TrackedAppend([ESC, c] + inside[..n], inside[n]);
    }
  }

  lemma ControlPrefix(c: Byte, inside: seq<Byte>, tail: seq<Byte>, k: nat)
    requires 0 < k <= 2 + |inside|
    ensures ([ESC, c] + inside + tail)[..k] == if k == 1 then [ESC] else [ESC, c] + inside[..k - 2]
  {
  }

  /** A sequence whose inside keeps the tracker in its state, and that ends in one byte. */
  lemma HeldToFinal(c: Byte, inside: seq<Byte>, last: Byte)
    requires c in {0x5b, 0x5d, 0x50}
    requires forall i | 0 <= i < |inside| ::
      if c == 0x5b then ContinuesCsi(inside[i]) else inside[i] != BELL && inside[i] != ESC
    requires if c == 0x5b then !ContinuesCsi(last) else last == BELL
    ensures HeldWhole([ESC, c] + inside + [last])
  {
    hide Tracked;
    var all := [ESC, c] + inside + [last];
    InsideHolds(c, inside);
    TrackedAppend([ESC, c] + inside, last);
    forall k | 0 < k < |all|
      ensures Tracked(all[..k]).seqStart == 0
    {
      ControlPrefix(c, inside, [last], k);
      if k == 1 {
        TrackedOne(ESC);
      } else {
        InsideHolds(c, inside[..k - 2]);
      }
    }
  }

  /** A string that ends in ESC \. */
  lemma HeldToStringEnd(c: Byte, body: seq<Byte>)
    requires c in {0x5d, 0x50} && BELL !in body && ESC !in body
    ensures HeldWhole([ESC, c] + body + STRING_END)
  {
    hide Tracked;
    var all := [ESC, c] + body + STRING_END;
    var escaped := [ESC, c] + body + [ESC];
    InsideHolds(c, body);
    TrackedAppend([ESC, c] + body, ESC);
    TrackedAppend(escaped, 0x5c);
    assert all == escaped + [0x5c];
    forall k | 0 < k < |all|
      ensures Tracked(all[..k]).seqStart == 0
    {
      if k == |all| - 1 {
        assert all[..k] == escaped;
      } else {
        ControlPrefix(c, body, STRING_END, k);
        if k == 1 {
          TrackedOne(ESC);
        } else {
          InsideHolds(c, body[..k - 2]);
        }
      }
    }
  }

  /** After `k` bytes of a rune of `n`, the others are awaited. */
  lemma {:induction false} RuneHolds(bs: seq<Byte>, k: nat)
    requires 1 <= k <= |bs| && |bs| == RuneRemaining(bs[0]) + 1 && |bs| >= 2
    requires forall i | 1 <= i < |bs| :: 0x80 <= bs[i] < 0xc0
    ensures Tracked(bs[..k]) == if k == |bs| then FRESH else Tracker(Ground, |bs| - k, 0)
    decreases k
  {
    hide Tracked;
    if k == 1 {
      assert bs[..1] == [bs[0]];
      TrackedOne(bs[0]);
    } else {
      RuneHolds(bs, k - 1);
      assert bs[..k] == bs[..k - 1] + [bs[k - 1]];
      TrackedAppend(bs[..k - 1], bs[k - 1]);
    }
  }

  lemma RuneHeld(r: Rune)
    requires r != 0x1b
    ensures HeldWhole(Encode(r))
  {
    hide Tracked, Track;
    var bs := Encode(r);
    if |bs| == 1 {
      TrackedOne(r);
      assert Track(FRESH, r, 0) == FRESH by { PlainByte(r); }
    } else {
      EncodedShape(r);
      forall k | 1 <= k <= |bs|
        ensures Tracked(bs[..k]) == if k == |bs| then FRESH else Tracker(Ground, |bs| - k, 0)
      {
        RuneHolds(bs, k);
      }
      assert bs[..|bs|] == bs;
    }
  }

  /** A byte that does not continue an unfinished rune is tracked as if the rune's beginning
      were text, whatever the byte is. */
  lemma BrokenRuneIsText(r: Rune, k: nat, b: Byte)
    requires 0 < k < |Encode(r)| && !(0x80 <= b < 0xc0)
    ensures Tracked(Encode(r)[..k] + [b]) == Shifted(Tracked([b]), k)
  {
    var bs := Encode(r);
    EncodedShape(r);
    RuneHolds(bs, k);
    TrackedAppend(bs[..k], b);
    TrackedOne(b);
    hide Tracked;
  }

  lemma PlainByte(b: Byte)
    requires b != ESC && b < 0x80
    ensures Track(FRESH, b, 0) == FRESH
  {
  }

  lemma EncodedShape(r: Rune)
    ensures var bs := Encode(r);
      |bs| >= 2 ==> |bs| == RuneRemaining(bs[0]) + 1 && forall i | 1 <= i < |bs| :: 0x80 <= bs[i] < 0xc0
  {
  }

  /** Every token is held back until it is complete, and then it is finished. */
  lemma TokenIsHeld(t: Token)
    requires Legal(t)
    ensures HeldWhole(TokenBytes(t))
  {
    hide Tracked, HeldWhole;
    match t
    case Char(r) => RuneHeld(r);
    case Control(parm, final) => HeldToFinal(0x5b, parm, final);
    case Operating(body, bell) =>
      if bell { HeldToFinal(0x5d, body, BELL); } else { HeldToStringEnd(0x5d, body); }
    case Device(body, bell) =>
      if bell { HeldToFinal(0x50, body, BELL); } else { HeldToStringEnd(0x50, body); }
    case Escaped(c) => EscapedHeld(c);
  }

  lemma EscapedHeld(c: Byte)
    requires c !in {0x5b, 0x5d, 0x50, 0x1b}
    ensures HeldWhole([ESC, c])
  {
    TrackedTwo(ESC, c);
    TrackedOne(ESC);
    assert [ESC, c][..1] == [ESC];
    hide Tracked;
  }

  // ---- Streams ----

  function StreamOf(ts: seq<Token>): seq<Byte> {
    if ts == [] then [] else StreamOf(ts[..|ts| - 1]) + TokenBytes(ts[|ts| - 1])
  }

  predicate AllLegal(ts: seq<Token>) {
    forall i | 0 <= i < |ts| :: Legal(ts[i])
  }

  /** Where token `j` begins. */
  function Start(ts: seq<Token>, j: nat): nat
    requires j <= |ts|
  {
    |StreamOf(ts[..j])|
  }

  lemma FreshFront(a: seq<Byte>, b: seq<Byte>)
    requires Tracked(a) == FRESH
    ensures Tracked(a + b) == Shifted(Tracked(b), |a|)
  {
    hide Tracked;
    DetachedAtGround(a);
    DetachedAppend(a, |a|, b);
    assert (a + b)[|a|..] == b;
  }

  lemma {:induction false} StreamIsFresh(ts: seq<Token>)
    requires AllLegal(ts)
    ensures Tracked(StreamOf(ts)) == FRESH
    decreases |ts|
  {
    if ts == [] {
      EmptyTracked();
    } else {
      hide Tracked, TokenBytes, Legal;
      var n := |ts| - 1;
      StreamIsFresh(ts[..n]);
      TokenIsHeld(ts[n]);
      FreshFront(StreamOf(ts[..n]), TokenBytes(ts[n]));
    }
  }

  /** Token `j` is the one that the first `n` bytes end in, or end in front of. */
  ghost predicate EndsIn(ts: seq<Token>, n: nat, j: nat) {
    j <= |ts| && Start(ts, j) <= n && (if j < |ts| then n < Start(ts, j + 1) else n == Start(ts, j))
  }

  /** Of any beginning of a stream of tokens, exactly the complete tokens may be emitted. */
  lemma {:induction false} SplitAtTokens(ts: seq<Token>, n: nat) returns (j: nat)
    requires AllLegal(ts) && n <= |StreamOf(ts)|
    ensures EndsIn(ts, n, j) && Split(StreamOf(ts)[..n]) == Start(ts, j)
    ensures Tracked(StreamOf(ts)[..n]) == FRESH <==> n == Start(ts, j)
    decreases |ts|
  {
    hide Tracked, TokenBytes, Legal;
    assert ts[..|ts|] == ts;
    if n == |StreamOf(ts)| {
      j := |ts|;
      StreamIsFresh(ts);
      assert StreamOf(ts)[..n] == StreamOf(ts);
    } else {
      var k := |ts| - 1;
      var front, last := StreamOf(ts[..k]), TokenBytes(ts[k]);
      if n < |front| {
        j := SplitAtTokens(ts[..k], n);
        assert StreamOf(ts)[..n] == front[..n];
        assert ts[..k][..j] == ts[..j] && ts[..k][..j + 1] == ts[..j + 1];
      } else {
        j := k;
        var m := n - |front|;
        StreamIsFresh(ts[..k]);
        TokenIsHeld(ts[k]);
        assert StreamOf(ts)[..n] == front + last[..m];
        FreshFront(front, last[..m]);
        EmptyTracked();
        assert m == 0 ==> last[..m] == [];
      }
    }
  }

  // ---- What the pump makes of them ----

  /** No token is longer than what is held back. */
  predicate AllShort(ts: seq<Token>) {
    forall i | 0 <= i < |ts| :: |TokenBytes(ts[i])| <= MAX_TAIL_HOLD
  }

  lemma StartStep(ts: seq<Token>, j: nat)
    requires j < |ts|
    ensures Start(ts, j + 1) == Start(ts, j) + |TokenBytes(ts[j])|
    ensures StreamOf(ts[..j + 1]) == StreamOf(ts[..j]) + TokenBytes(ts[j])
  {
    assert ts[..j + 1][..j] == ts[..j];
  }

  lemma TokensAreShort(ts: seq<Token>)
    requires AllLegal(ts) && AllShort(ts)
    ensures TailsShort(StreamOf(ts))
  {
    hide Split, TokenBytes, Legal, StreamOf;
    forall n | 0 <= n <= |StreamOf(ts)|
      ensures n - Split(StreamOf(ts)[..n]) <= MAX_TAIL_HOLD
    {
      var j := SplitAtTokens(ts, n);
      if j < |ts| {
        StartStep(ts, j);
      }
    }
  }

  lemma TokensAreClean(ts: seq<Token>)
    requires AllLegal(ts)
    ensures forall n | 0 <= n < |StreamOf(ts)| :: !Restarts(StreamOf(ts), n)
  {
    hide Tracked, TokenBytes, Legal, Restarts, StreamOf;
    var data := StreamOf(ts);
    forall n | 0 <= n <= |data|
      ensures CleanAfter(data, n)
    {
      var j := SplitAtTokens(ts, n);
      StreamPrefix(ts, j);
      LegalPrefix(ts, j);
      StreamIsFresh(ts[..j]);
      assert data[..n][..Start(ts, j)] == data[..Start(ts, j)];
    }
    CleanIffNoRestart(data);
  }

  lemma LegalPrefix(ts: seq<Token>, j: nat)
    requires AllLegal(ts) && j <= |ts|
    ensures AllLegal(ts[..j])
  {
    hide Legal;
  }

  lemma {:induction false} StreamPrefix(ts: seq<Token>, j: nat)
    requires j <= |ts|
    ensures Start(ts, j) <= |StreamOf(ts)| && StreamOf(ts)[..Start(ts, j)] == StreamOf(ts[..j])
    decreases |ts| - j
  {
    hide TokenBytes;
    if j == |ts| {
      assert ts[..j] == ts;
    } else {
      StreamPrefix(ts, j + 1);
      StartStep(ts, j);
      hide StreamOf;
      assert StreamOf(ts[..j + 1])[..Start(ts, j)] == StreamOf(ts[..j]);
    }
  }

  /** An escape inside a token is that of a string's end. */
  lemma EscapeInside(t: Token, m: nat)
    requires Legal(t) && 0 < m < |TokenBytes(t)| && TokenBytes(t)[m] == ESC
    ensures Tracked(TokenBytes(t)[..m]).state in {Osc, Dcs}
  {
    hide Tracked;
    match t
    case Char(r) => EncodedShape(r);
    case Control(parm, final) => ControlHasNoEscape(parm, final);
    case Operating(body, bell) => StringEscape(0x5d, body, Ending(bell), m);
    case Device(body, bell) => StringEscape(0x50, body, Ending(bell), m);
    case Escaped(c) =>
  }

  lemma ControlHasNoEscape(parm: seq<Byte>, final: Byte)
    requires Legal(Control(parm, final))
    ensures forall m | 0 < m < 3 + |parm| :: ([ESC, 0x5b] + parm + [final])[m] != ESC
  {
    forall m | 0 < m < 3 + |parm|
      ensures ([ESC, 0x5b] + parm + [final])[m] != ESC
    {
      assert 2 <= m < 2 + |parm| ==> IsInner(parm[m - 2]);
    }
  }

  lemma BodyHasNoEscape(c: Byte, body: seq<Byte>, end: seq<Byte>)
    requires c in {0x5d, 0x50} && ESC !in body
    ensures forall m | 0 < m < 2 + |body| :: ([ESC, c] + body + end)[m] != ESC
  {
    forall m | 0 < m < 2 + |body|
      ensures ([ESC, c] + body + end)[m] != ESC
    {
      assert m >= 2 ==> ([ESC, c] + body + end)[m] == body[m - 2];
    }
  }

  lemma StringEscape(c: Byte, body: seq<Byte>, end: seq<Byte>, m: nat)
    requires c in {0x5d, 0x50} && BELL !in body && ESC !in body && (end == [BELL] || end == STRING_END)
    requires 0 < m < 2 + |body| + |end| && ([ESC, c] + body + end)[m] == ESC
    ensures Tracked(([ESC, c] + body + end)[..m]).state in {Osc, Dcs}
  {
    hide Tracked;
    BodyHasNoEscape(c, body, end);
    assert m == 2 + |body|;
    ControlPrefix(c, body, end, m);
    assert body[..m - 2] == body;
    InsideHolds(c, body);
  }

  /** So every marker in such a stream is seen. */
  lemma TokenMarkersSeen(ts: seq<Token>)
    requires AllLegal(ts)
    ensures MarkersSeen(StreamOf(ts))
  {
    hide Tracked, TokenBytes, StreamOf, Legal;
    var data := StreamOf(ts);
    forall i | 0 <= i < |data| && MarkerAt(data, i)
      ensures Tracked(data[..i]).state != Csi
    {
      MarkerBytes(data, i);
      hide MarkerAt;
      var j := SplitAtTokens(ts, i);
      var m := i - Start(ts, j);
      if m > 0 {
        StartStep(ts, j);
        StreamPrefix(ts, j + 1);
        LegalPrefix(ts, j);
        StreamIsFresh(ts[..j]);
        var bs := TokenBytes(ts[j]);
        assert data[..Start(ts, j + 1)][i] == data[i] && bs[m] == ESC;
        assert data[..Start(ts, j + 1)][..i] == data[..i];
        assert data[..i] == StreamOf(ts[..j]) + bs[..m];
        FreshFront(StreamOf(ts[..j]), bs[..m]);
        EscapeInside(ts[j], m);
      }
    }
  }

  /** On every run the code can make over such a stream all of it is wrapped, with its markers
      removed, and nothing is left to follow raw. */
  lemma TokensKeepMeaning(ts: seq<Token>, cfg: Config, evs: seq<Event>)
    requires AllLegal(ts) && AllShort(ts) && RunsOver(cfg, evs, StreamOf(ts))
    ensures var p := Run(cfg, evs);
      NoneRaw(p.pieces) && Payload(p.pieces) == Strip(StreamOf(ts)) && RawEnd(p.pieces) == []
  {
    var data := StreamOf(ts);
    StreamIsFresh(ts);
    assert Split(data) == |data| && data[..|data|] == data;
    hide Run, Real, TokenBytes, Legal, StreamOf, TailsShort, MarkersSeen, AllLegal, AllShort, Tracked, Payload, Strip;
    TokensAreShort(ts);
    TokenMarkersSeen(ts);
    MeaningPreserved(cfg, evs);
  }

  /** Every write of every run the code can make over such a stream ends between two tokens,
      and the meaning is kept. */
  lemma WritesEndBetweenTokens(ts: seq<Token>, cfg: Config, evs: seq<Event>)
    requires AllLegal(ts) && AllShort(ts) && RunsOver(cfg, evs, StreamOf(ts))
    ensures forall i | 0 <= i < |Run(cfg, evs).pieces| :: EndsBetween(ts, Run(cfg, evs).pieces, i)
  {
    hide Run, Real, TokenBytes, Legal, StreamOf, TailsShort, Restarts, CutsClean, AllLegal, AllShort;
    var data := StreamOf(ts);
    TokensAreShort(ts);
    TokensAreClean(ts);
    CutsAreCleanExactly(data);
    RunConserves(cfg, evs);
    var pieces := Run(cfg, evs).pieces;
    forall i | 0 <= i < |pieces|
      ensures EndsBetween(ts, pieces, i)
    {
      CleanIsBetween(ts, pieces, i);
    }
  }

  /** Piece `i`, without a raw tail, ends where some token begins, or at the end. */
  ghost predicate EndsBetween(ts: seq<Token>, pieces: seq<Piece>, i: nat)
    requires i < |pieces|
  {
    exists j: nat :: j <= |ts| && |AllBytes(pieces[..i]) + HeadOf(pieces[i])| == Start(ts, j)
  }

  lemma CleanIsBetween(ts: seq<Token>, pieces: seq<Piece>, i: nat)
    requires AllLegal(ts) && i < |pieces| && AllBytes(pieces) == StreamOf(ts) && CutsClean(pieces)
    ensures EndsBetween(ts, pieces, i)
  {
    hide Tracked, TokenBytes, Legal, StreamOf, AllLegal, HeadOf, AllBytes;
    var head := AllBytes(pieces[..i]) + HeadOf(pieces[i]);
    assert CleanPiece(pieces, i);
    PiecePrefix(pieces, i);
    assert StreamOf(ts)[..|head|] == head;
    var j := SplitAtTokens(ts, |head|);
    assert |head| == Start(ts, j);
  }

  lemma HeadFirst(piece: Piece, front: seq<Byte>)
    ensures front + HeadOf(piece) <= front + PieceBytes(piece)
  {
  }

  lemma LongerPrefix(a: seq<Byte>, b: seq<Byte>, more: seq<Byte>)
    requires a <= b
    ensures a <= b + more
  {
  }

  lemma {:induction false} PiecePrefix(pieces: seq<Piece>, i: nat)
    requires i < |pieces|
    ensures AllBytes(pieces[..i]) + HeadOf(pieces[i]) <= AllBytes(pieces)
    decreases |pieces|
  {
    hide HeadOf, PieceBytes;
    var n := |pieces| - 1;
    if i < n {
      PiecePrefix(pieces[..n], i);
      assert pieces[..n][..i] == pieces[..i] && pieces[..n][i] == pieces[i];
      LongerPrefix(AllBytes(pieces[..i]) + HeadOf(pieces[i]), AllBytes(pieces[..n]), PieceBytes(pieces[n]));
    } else {
      HeadFirst(pieces[n], AllBytes(pieces[..n]));
    }
  }

  // ---- Private parameters ----

  /** ECMA-48 allows three more parameter bytes, `<`, `=` and `>`. The tracker takes them for
      the end: a control sequence is held back whole exactly if it has none of them. */
  lemma ControlIsHeldExactly(parm: seq<Byte>, final: Byte)
    requires (forall i | 0 <= i < |parm| :: 0x20 <= parm[i] <= 0x3f) && 0x40 <= final <= 0x7e
    ensures HeldWhole([ESC, 0x5b] + parm + [final]) <==> forall i | 0 <= i < |parm| :: !(0x3c <= parm[i] <= 0x3e)
  {
    hide Tracked;
    if i: nat :| i < |parm| && 0x3c <= parm[i] <= 0x3e {
      var k := FirstPrivate(parm, i);
      PrivateEnds(parm[..k], parm[k]);
      ControlPrefix(0x5b, parm, [final], k + 3);
      assert parm[..k + 1] == parm[..k] + [parm[k]];
      assert [ESC, 0x5b] + (parm[..k] + [parm[k]]) == [ESC, 0x5b] + parm[..k] + [parm[k]];
    } else {
      HeldToFinal(0x5b, parm, final);
    }
  }

  lemma FirstPrivate(parm: seq<Byte>, i: nat) returns (k: nat)
    requires i < |parm| && 0x3c <= parm[i] <= 0x3e
    ensures k <= i && 0x3c <= parm[k] <= 0x3e && forall j | 0 <= j < k :: !(0x3c <= parm[j] <= 0x3e)
    decreases i
  {
    if j: nat :| j < i && 0x3c <= parm[j] <= 0x3e {
      k := FirstPrivate(parm, j);
    } else {
      k := i;
    }
  }

  lemma PrivateEnds(parm: seq<Byte>, b: Byte)
    requires forall i | 0 <= i < |parm| :: 0x20 <= parm[i] <= 0x3f && !(0x3c <= parm[i] <= 0x3e)
    requires 0x3c <= b <= 0x3e
    ensures Tracked([ESC, 0x5b] + parm + [b]) == FRESH
  {
    InsideHolds(0x5b, parm);
    TrackedAppend([ESC, 0x5b] + parm, b);
    hide Tracked;
  }

  /** A run the code can make that wraps the introducer of such a sequence on its own: the end
      marker stands in front of the rest. */
  lemma PrivateIsCut(parm: seq<Byte>, b: Byte)
    requires forall i | 0 <= i < |parm| :: 0x20 <= parm[i] <= 0x3f && !(0x3c <= parm[i] <= 0x3e)
    requires 0x3c <= b <= 0x3e
    ensures var head := [ESC, 0x5b] + parm + [b];
      Real(PLAIN_WRAP, FirstPart(head)) && Run(PLAIN_WRAP, FirstPart(head)).pieces == [Wrapped(head)]
  {
    PrivateEnds(parm, b);
    hide Tracked, Run, Real, FirstPart, Strip, WrapOf, WriteOf;
    var head := [ESC, 0x5b] + parm + [b];
    var p := FirstPartRun(head);
    assert head[..|head|] == head;
  }
}
