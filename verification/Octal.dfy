/** The text form of pane bytes in tmux control mode: the octal-escape decoder of
    internal/tmuxcc/protocol.go and the send-keys encoder of internal/tmuxcc/input.go. */
module Octal {
  import opened Bytes

  const BACKSLASH: Byte := 0x5c
  const QUOTE: Byte := 0x22

  datatype Error = TrailingBackslash | IncompleteOctal | BadOctal
  datatype Result = Ok(bytes: seq<Byte>) | Err(error: Error)

  predicate IsOctal(b: Byte) {
    0x30 <= b <= 0x37
  }

  /** Three octal digits, cut down to a byte as the decoder does. */
  function OctalByte(a: Byte, b: Byte, c: Byte): Byte
    requires IsOctal(a) && IsOctal(b) && IsOctal(c)
  {
    ((a - 0x30) * 64 + (b - 0x30) * 8 + (c - 0x30)) % 256
  }

  function Before(head: seq<Byte>, tail: Result): Result {
    if tail.Ok? then Ok(head + tail.bytes) else tail
  }

  /** The bytes a text stands for. */
  function Decoded(s: seq<Byte>): Result
    decreases |s|
  {
    if s == [] then Ok([])
    else if s[0] != BACKSLASH then Before([s[0]], Decoded(s[1..]))
    else if |s| < 2 then Err(TrailingBackslash)
    else if s[1] == BACKSLASH then Before([BACKSLASH], Decoded(s[2..]))
    else if !IsOctal(s[1]) then Before([BACKSLASH, s[1]], Decoded(s[2..]))
    else if |s| < 4 then Err(IncompleteOctal)
    else if !IsOctal(s[2]) || !IsOctal(s[3]) then Err(BadOctal)
    else Before([OctalByte(s[1], s[2], s[3])], Decoded(s[4..]))
  }

  lemma BeforeBefore(a: seq<Byte>, b: seq<Byte>, r: Result)
    ensures Before(a, Before(b, r)) == Before(a + b, r)
  {
    if r.Ok? {
      assert a + (b + r.bytes) == (a + b) + r.bytes;
    }
  }

  /** The index loop of the decoder. */
  method DecodeOctalEscapes(s: seq<Byte>) returns (r: Result)
    ensures r == Decoded(s)
  {
    hide OctalByte;
    var out: seq<Byte> := [];
    var i := 0;
    assert s[0..] == s;
    assert Before([], Decoded(s)) == Decoded(s);
    while i < |s|
      invariant 0 <= i <= |s|
      invariant Decoded(s) == Before(out, Decoded(s[i..]))
    {
      var rest := s[i..];
      assert forall k | 0 <= k <= |rest| :: rest[k..] == s[i + k..];
      if s[i] != BACKSLASH {
        BeforeBefore(out, [s[i]], Decoded(rest[1..]));
        out := out + [s[i]];
        i := i + 1;
        continue;
      }
      if i + 1 >= |s| {
        return Err(TrailingBackslash);
      }
      var c := s[i + 1];
      if c == BACKSLASH {
        BeforeBefore(out, [BACKSLASH], Decoded(rest[2..]));
        out := out + [BACKSLASH];
        i := i + 2;
        continue;
      }
      if c < 0x30 || c > 0x37 {
        BeforeBefore(out, [s[i], c], Decoded(rest[2..]));
        out := out + [s[i], c];
        i := i + 2;
        continue;
      }
      if i + 3 >= |s| {
        return Err(IncompleteOctal);
      }
      if !IsOctal(s[i + 2]) || !IsOctal(s[i + 3]) {
        return Err(BadOctal);
      }
      var o := OctalByte(s[i + 1], s[i + 2], s[i + 3]);
      BeforeBefore(out, [o], Decoded(rest[4..]));
      out := out + [o];
      i := i + 4;
    }
    r := Ok(out);
    assert s[i..] == [];
  }

  // ---- The grammar the decoder accepts ----

  /** The pieces a text is made of. `Other` is a backslash before anything that is neither
      a backslash nor an octal digit, which the decoder lets through. */
  datatype Piece = Raw(b: Byte) | Doubled | Digits(d1: Byte, d2: Byte, d3: Byte) | Other(c: Byte)

  predicate Legal(p: Piece) {
    match p
    case Raw(b) => b != BACKSLASH
    case Doubled => true
    case Digits(a, b, c) => IsOctal(a) && IsOctal(b) && IsOctal(c)
    case Other(c) => c != BACKSLASH && !IsOctal(c)
  }

  predicate AllLegal(ps: seq<Piece>) {
    forall i | 0 <= i < |ps| :: Legal(ps[i])
  }

  function Spelling(p: Piece): seq<Byte> {
    match p
    case Raw(b) => [b]
    case Doubled => [BACKSLASH, BACKSLASH]
    case Digits(a, b, c) => [BACKSLASH, a, b, c]
    case Other(c) => [BACKSLASH, c]
  }

  function Value(p: Piece): seq<Byte>
    requires Legal(p)
  {
    match p
    case Raw(b) => [b]
    case Doubled => [BACKSLASH]
    case Digits(a, b, c) => [OctalByte(a, b, c)]
    case Other(c) => [BACKSLASH, c]
  }

  function Text(ps: seq<Piece>): seq<Byte> {
    if ps == [] then [] else Spelling(ps[0]) + Text(ps[1..])
  }

  function Values(ps: seq<Piece>): seq<Byte>
    requires AllLegal(ps)
  {
    if ps == [] then [] else Value(ps[0]) + Values(ps[1..])
  }

  lemma PieceDecodes(p: Piece, rest: seq<Byte>)
    requires Legal(p)
    ensures Decoded(Spelling(p) + rest) == Before(Value(p), Decoded(rest))
  {
    var s := Spelling(p) + rest;
    assert s[|Spelling(p)|..] == rest;
  }

  lemma {:induction false} TextDecodes(ps: seq<Piece>)
    requires AllLegal(ps)
    ensures Decoded(Text(ps)) == Ok(Values(ps))
    decreases |ps|
  {
    if ps != [] {
      TextDecodes(ps[1..]);
      PieceDecodes(ps[0], Text(ps[1..]));
    }
  }

  /** The first piece of a text that decodes. */
  function FirstPiece(s: seq<Byte>): (p: Piece)
    requires s != [] && Decoded(s).Ok?
    ensures Legal(p) && Spelling(p) <= s && Decoded(s[|Spelling(p)|..]).Ok?
  {
    if s[0] != BACKSLASH then Raw(s[0])
    else if s[1] == BACKSLASH then Doubled
    else if !IsOctal(s[1]) then Other(s[1])
    else Digits(s[1], s[2], s[3])
  }

  lemma SpellingNonempty(p: Piece)
    ensures |Spelling(p)| > 0
  {
  }

  lemma {:induction false} DecodedIsText(s: seq<Byte>) returns (ps: seq<Piece>)
    requires Decoded(s).Ok?
    ensures AllLegal(ps) && Text(ps) == s && Values(ps) == Decoded(s).bytes
    decreases |s|
  {
    if s == [] {
      ps := [];
    } else {
      var p := FirstPiece(s);
      hide Decoded, FirstPiece, Spelling, Value, Legal;
      var rest := s[|Spelling(p)|..];
      SpellingNonempty(p);
      var more := DecodedIsText(rest);
      ps := [p] + more;
      assert ps[1..] == more && s == Spelling(p) + rest;
      PieceDecodes(p, rest);
    }
  }

  /** A text is made of legal pieces that stand for `bs`. */
  ghost predicate StandsFor(s: seq<Byte>, bs: seq<Byte>) {
    exists ps: seq<Piece> :: AllLegal(ps) && Text(ps) == s && Values(ps) == bs
  }

  /** The decoder succeeds exactly on the texts of the grammar, with what they stand for. */
  lemma DecodeIsExact(s: seq<Byte>, bs: seq<Byte>)
    ensures Decoded(s) == Ok(bs) <==> StandsFor(s, bs)
  {
    if Decoded(s) == Ok(bs) {
      var ps := DecodedIsText(s);
      assert AllLegal(ps) && Text(ps) == s && Values(ps) == bs;
    }
    if StandsFor(s, bs) {
      var ps: seq<Piece> :| AllLegal(ps) && Text(ps) == s && Values(ps) == bs;
      TextDecodes(ps);
    }
  }

  // ---- Encoding ----

  /** How one byte may be written by tmux. */
  datatype Form = Plain | DoubleBackslash | ThreeDigits

  predicate Allowed(b: Byte, f: Form) {
    (f == Plain ==> b != BACKSLASH) && (f == DoubleBackslash ==> b == BACKSLASH)
  }

  function Octal3(b: Byte): seq<Byte> {
    [BACKSLASH, 0x30 + b / 64, 0x30 + b / 8 % 8, 0x30 + b % 8]
  }

  function Written(b: Byte, f: Form): seq<Byte> {
    match f
    case Plain => [b]
    case DoubleBackslash => [BACKSLASH, BACKSLASH]
    case ThreeDigits => Octal3(b)
  }

  function WrittenAll(bs: seq<Byte>, forms: seq<Form>): seq<Byte>
    requires |bs| == |forms|
  {
    if bs == [] then [] else Written(bs[0], forms[0]) + WrittenAll(bs[1..], forms[1..])
  }

  lemma OctalDigits(b: Byte)
    ensures IsOctal(0x30 + b / 64) && IsOctal(0x30 + b / 8 % 8) && IsOctal(0x30 + b % 8)
    ensures OctalByte(0x30 + b / 64, 0x30 + b / 8 % 8, 0x30 + b % 8) == b
  {
    var a := b / 8;
    assert a / 8 == b / 64 && b == a * 8 + b % 8 && a == a / 8 * 8 + a % 8;
  }

  lemma WrittenDecodes(b: Byte, f: Form, rest: seq<Byte>)
    requires Allowed(b, f)
    ensures Decoded(Written(b, f) + rest) == Before([b], Decoded(rest))
  {
    hide Decoded, OctalByte;
    match f
    case Plain => PieceDecodes(Raw(b), rest);
    case DoubleBackslash => PieceDecodes(Doubled, rest);
    case ThreeDigits =>
      OctalDigits(b);
      PieceDecodes(Digits(0x30 + b / 64, 0x30 + b / 8 % 8, 0x30 + b % 8), rest);
  }

  /** Whatever allowed way each byte is written in, decoding gives the bytes back. */
  lemma {:induction false} DecodeInvertsWritten(bs: seq<Byte>, forms: seq<Form>)
    requires |bs| == |forms| && forall i | 0 <= i < |bs| :: Allowed(bs[i], forms[i])
    ensures Decoded(WrittenAll(bs, forms)) == Ok(bs)
    decreases |bs|
  {
    if bs != [] {
      DecodeInvertsWritten(bs[1..], forms[1..]);
      WrittenDecodes(bs[0], forms[0], WrittenAll(bs[1..], forms[1..]));
      assert [bs[0]] + bs[1..] == bs;
    }
  }

  /** `send-keys -t ` */
  const SEND_KEYS: seq<Byte> := [0x73, 0x65, 0x6e, 0x64, 0x2d, 0x6b, 0x65, 0x79, 0x73, 0x20, 0x2d, 0x74, 0x20]
  /** ` -l "` */
  const LITERAL: seq<Byte> := [0x20, 0x2d, 0x6c, 0x20, QUOTE]

  function Payload(data: seq<Byte>): seq<Byte> {
    WrittenAll(data, seq(|data|, _ => ThreeDigits))
  }

  lemma PayloadStep(data: seq<Byte>)
    requires data != []
    ensures Payload(data) == Octal3(data[0]) + Payload(data[1..])
  {
    assert seq(|data|, _ => ThreeDigits)[1..] == seq(|data| - 1, _ => ThreeDigits);
  }

  lemma {:induction false} PayloadAppend(data: seq<Byte>, b: Byte)
    ensures Payload(data + [b]) == Payload(data) + Octal3(b)
    decreases |data|
  {
    hide Octal3;
    PayloadStep(data + [b]);
    if data == [] {
      assert (data + [b])[1..] == [];
    } else {
      assert (data + [b])[1..] == data[1..] + [b];
      PayloadStep(data);
      PayloadAppend(data[1..], b);
    }
  }

  method EncodeSendKeysLiteral(target: seq<Byte>, data: seq<Byte>) returns (line: seq<Byte>)
    ensures line == SEND_KEYS + target + LITERAL + Payload(data) + [QUOTE]
  {
    line := SEND_KEYS;
    line := line + target;
    line := line + LITERAL;
    ghost var head := line;
    for i := 0 to |data|
      invariant line == head + Payload(data[..i])
    {
      PayloadAppend(data[..i], data[i]);
      assert data[..i + 1] == data[..i] + [data[i]];
      line := line + Octal3(data[i]);
    }
    assert data[..|data|] == data;
    line := line + [QUOTE];
  }

  lemma {:induction false} PayloadIsQuotable(data: seq<Byte>)
    ensures forall i | 0 <= i < |Payload(data)| :: Payload(data)[i] == BACKSLASH || IsOctal(Payload(data)[i])
    decreases |data|
  {
    if data != [] {
      PayloadStep(data);
      PayloadIsQuotable(data[1..]);
    }
  }

  /** What stands between the quotes decodes to the data, and nothing in it can end the
      quoted argument: it is backslashes and octal digits only. */
  lemma SendKeysCarriesData(data: seq<Byte>)
    ensures Decoded(Payload(data)) == Ok(data)
    ensures QUOTE !in Payload(data)
  {
    DecodeInvertsWritten(data, seq(|data|, _ => ThreeDigits));
    PayloadIsQuotable(data);
  }
}
