/** Bytes, and the decimal numerals that escape sequences carry. */
module Bytes {

  type Byte = b: int | 0 <= b < 256

  const ESC: Byte := 0x1b
  const SEMICOLON: Byte := 0x3b

  predicate IsDigit(b: Byte) {
    0x30 <= b <= 0x39
  }

  /** The decimal numeral of `n`, most significant digit first (Go's `%d`). */
  function Decimal(n: nat): (ds: seq<Byte>)
    ensures |ds| >= 1
    ensures forall i | 0 <= i < |ds| :: IsDigit(ds[i])
  {
    if n < 10 then [0x30 + n] else Decimal(n / 10) + [0x30 + n % 10]
  }

  /** The concatenation of the parts, in order. */
  function Flatten<T>(parts: seq<seq<T>>): seq<T> {
    if parts == [] then [] else parts[0] + Flatten(parts[1..])
  }

  lemma {:induction false} FlattenAppend<T>(xs: seq<seq<T>>, ys: seq<seq<T>>)
    ensures Flatten(xs + ys) == Flatten(xs) + Flatten(ys)
  {
    if xs == [] {
      assert xs + ys == ys;
    } else {
      assert (xs + ys)[1..] == xs[1..] + ys;
      FlattenAppend(xs[1..], ys);
    }
  }
}
