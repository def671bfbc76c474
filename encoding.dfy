/** The columnar encoding: one column per primitive kind. */
module Encodings {

  /** A double-precision float, carried as its IEEE 754 bit pattern. The codec only stores and copies these. */
  datatype F64 = F64(bits: bv64)

  /** A signed 64-bit integer. */
  newtype Int64 = x: int | -0x8000_0000_0000_0000 <= x < 0x8000_0000_0000_0000

  /** The floats, ints and bools of a value, each column in pre-order. */
  datatype Encoding = Encoding(f: seq<F64>, i: seq<Int64>, b: seq<bool>)

  /** The encoding a fresh serializer starts from (the derived default). */
  const Empty := Encoding([], [], [])

  /** Column-by-column concatenation. */
  function Concat(x: Encoding, y: Encoding): Encoding {
    Encoding(x.f + y.f, x.i + y.i, x.b + y.b)
  }

  lemma ConcatAssoc(x: Encoding, y: Encoding, z: Encoding)
    ensures Concat(Concat(x, y), z) == Concat(x, Concat(y, z))
  {
  }

  /** One count per column: column lengths, leaf counts of a shape, or the three cursors of a decode. */
  datatype Counts = Counts(f: nat, i: nat, b: nat)

  const Zero := Counts(0, 0, 0)

  function Lengths(e: Encoding): Counts {
    Counts(|e.f|, |e.i|, |e.b|)
  }

  function Plus(c: Counts, d: Counts): Counts {
    Counts(c.f + d.f, c.i + d.i, c.b + d.b)
  }

  /** Two encodings are equal exactly when their three columns are pairwise equal. */
  lemma EqualityIsColumnwise(x: Encoding, y: Encoding)
    ensures x == y <==> (x.f == y.f && x.i == y.i && x.b == y.b)
  {
  }
}
