/** The part of UTF-8 (RFC 3629, section 3) that the terminal model relies on,
    with Go's treatment of malformed input. */
module Utf8 {
  import opened Bytes

  type Rune = r: int | 0 <= r < 0x11_0000

  const REPLACEMENT: Rune := 0xfffd

  predicate IsScalar(r: Rune) {
    r < 0xd800 || 0xe000 <= r
  }

  predicate IsContinuation(b: Byte) {
    0x80 <= b < 0xc0
  }

  /** Length announced by a lead byte; 0 for a byte that cannot start a rune. */
  function SequenceLength(b: Byte): nat {
    if b < 0x80 then 1
    else if 0xc0 <= b < 0xe0 then 2
    else if 0xe0 <= b < 0xf0 then 3
    else if 0xf0 <= b < 0xf8 then 4
    else 0
  }

  /** Encoding of one rune; what is not a scalar value becomes U+FFFD. */
  function Encode(r: Rune): (bs: seq<Byte>)
    ensures 1 <= |bs| <= 4
  {
    if !IsScalar(r) then [0xef, 0xbf, 0xbd]
    else if r < 0x80 then [r]
    else if r < 0x800 then [0xc0 + r / 64, 0x80 + r % 64]
    else if r < 0x1_0000 then [0xe0 + r / 4096, 0x80 + r / 64 % 64, 0x80 + r % 64]
    else [0xf0 + r / 262144, 0x80 + r / 4096 % 64, 0x80 + r / 64 % 64, 0x80 + r % 64]
  }

  /** Second bytes that RFC 3629 allows after lead byte `lead`. */
  predicate SecondByteOk(lead: Byte, second: Byte) {
    && IsContinuation(second)
    && (lead == 0xe0 ==> 0xa0 <= second)
    && (lead == 0xed ==> second < 0xa0)
    && (lead == 0xf0 ==> 0x90 <= second)
    && (lead == 0xf4 ==> second < 0x90)
  }

  /** First rune of a multi-byte sequence whose length its lead byte announces. */
  function DecodeFirst(bs: seq<Byte>): (r: Rune)
    requires 2 <= |bs| && |bs| == SequenceLength(bs[0])
    ensures 0x80 <= r && IsScalar(r)
  {
    var lead := bs[0];
    if lead < 0xc2 || 0xf4 < lead || !SecondByteOk(lead, bs[1]) then REPLACEMENT
    else if |bs| == 2 then (lead - 0xc0) * 64 + (bs[1] - 0x80)
    else if !IsContinuation(bs[2]) then REPLACEMENT
    else if |bs| == 3 then (lead - 0xe0) * 4096 + (bs[1] - 0x80) * 64 + (bs[2] - 0x80)
    else if !IsContinuation(bs[3]) then REPLACEMENT
    else (lead - 0xf0) * 262144 + (bs[1] - 0x80) * 4096 + (bs[2] - 0x80) * 64 + (bs[3] - 0x80)
  }

  /** Decoding inverts encoding on every scalar value beyond ASCII. */
  lemma DecodeInvertsEncode(r: Rune)
    requires 0x80 <= r && IsScalar(r)
    ensures |Encode(r)| == SequenceLength(Encode(r)[0]) >= 2
    ensures DecodeFirst(Encode(r)) == r
  {
    if r < 0x800 {
    } else if r < 0x1_0000 {
      ThreeDigits(r);
    } else {
      FourDigits(r);
    }
  }

  /** What is decoded otherwise than to U+FFFD is the encoding of the result: overlong forms,
      surrogates, numbers beyond the last rune and broken continuations all give U+FFFD. */
  lemma DecodesOnlyEncodings(bs: seq<Byte>)
    requires 2 <= |bs| && |bs| == SequenceLength(bs[0])
    ensures DecodeFirst(bs) == REPLACEMENT || Encode(DecodeFirst(bs)) == bs
  {
    var r := DecodeFirst(bs);
    if r != REPLACEMENT {
      var a: nat, b: nat := bs[0], bs[1];
      if |bs| == 2 {
        LastDigit(r, a - 0xc0, b - 0x80);
      } else if |bs| == 3 {
        var c: nat := bs[2];
        LastDigit(r, (a - 0xe0) * 64 + (b - 0x80), c - 0x80);
        LastDigit(r / 64, a - 0xe0, b - 0x80);
        assert r / 4096 == r / 64 / 64;
      } else {
        var c: nat, d: nat := bs[2], bs[3];
        LastDigit(r, (a - 0xf0) * 4096 + (b - 0x80) * 64 + (c - 0x80), d - 0x80);
        LastDigit(r / 64, (a - 0xf0) * 64 + (b - 0x80), c - 0x80);
        LastDigit(r / 64 / 64, a - 0xf0, b - 0x80);
        assert r / 4096 == r / 64 / 64 && r / 262144 == r / 4096 / 64;
      }
    }
  }

  lemma LastDigit(n: nat, high: nat, low: nat)
    requires n == high * 64 + low && low < 64
    ensures n / 64 == high && n % 64 == low
  {
  }

  /** Lead bytes by their high bits: 110, 1110 and 11110 announce two, three and four bytes; a
      continuation byte and 11111 announce nothing. */
  lemma LeadBits(b: Byte)
    ensures (b / 32 == 6 <==> SequenceLength(b) == 2) && (b / 16 == 14 <==> SequenceLength(b) == 3)
    ensures (b / 8 == 30 <==> SequenceLength(b) == 4) && (b / 128 == 0 <==> SequenceLength(b) == 1)
    ensures b / 64 == 2 || b / 8 == 31 <==> SequenceLength(b) == 0
  {
  }

  lemma ThreeDigits(r: nat)
    ensures r == r / 4096 * 4096 + r / 64 % 64 * 64 + r % 64
  {
    assert r / 64 / 64 == r / 4096;
  }

  lemma FourDigits(r: nat)
    ensures r == r / 262144 * 262144 + r / 4096 % 64 * 4096 + r / 64 % 64 * 64 + r % 64
  {
    ThreeDigits(r);
    assert r / 4096 / 64 == r / 262144;
  }
}
