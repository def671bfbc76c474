/**
 * The producing side: a serializer owns one encoding under construction and walks a
 * value depth-first in pre-order, appending each leaf to the column of its kind.
 */
module Ser {
  import opened Errors
  import opened Encodings
  import opened Values

  class Serializer {
    var encoding: Encoding

    /** A serializer starts from the empty encoding. */
    constructor ()
      ensures encoding == Empty
    {
      encoding := Empty;
    }

    /** Hands back the accumulated encoding. */
    method Consume() returns (e: Encoding)
      ensures e == encoding
    {
      e := encoding;
    }

    method SerializeF64(v: F64) returns (r: Result<()>)
      modifies this
      ensures r == Ok(())
      ensures encoding == Encoding(old(encoding).f + [v], old(encoding).i, old(encoding).b)
    {
      encoding := encoding.(f := encoding.f + [v]);
      r := Ok(());
    }

    method SerializeI64(v: Int64) returns (r: Result<()>)
      modifies this
      ensures r == Ok(())
      ensures encoding == Encoding(old(encoding).f, old(encoding).i + [v], old(encoding).b)
    {
      encoding := encoding.(i := encoding.i + [v]);
      r := Ok(());
    }

    method SerializeBool(v: bool) returns (r: Result<()>)
      modifies this
      ensures r == Ok(())
      ensures encoding == Encoding(old(encoding).f, old(encoding).i, old(encoding).b + [v])
    {
      encoding := encoding.(b := encoding.b + [v]);
      r := Ok(());
    }

    /** Opening a struct accepts it and appends nothing; its name and length are not recorded. */
    method SerializeStruct(name: string, len: nat) returns (r: Result<()>)
      ensures r == Ok(())
    {
      r := Ok(());
    }

    /** Opening a tuple accepts it and appends nothing. */
    method SerializeTuple(len: nat) returns (r: Result<()>)
      ensures r == Ok(())
    {
      r := Ok(());
    }

    /** A struct field goes through this same serializer; its key is not recorded. */
    method SerializeField(key: string, value: Value) returns (r: Result<()>)
      requires WellFormedValue(value)
      modifies this
      ensures r == Ok(())
      ensures encoding == Concat(old(encoding), Columns(value))
      decreases value, 1
    {
      r := SerializeValue(value);
    }

    /** A tuple element goes through this same serializer. */
    method SerializeElement(value: Value) returns (r: Result<()>)
      requires WellFormedValue(value)
      modifies this
      ensures r == Ok(())
      ensures encoding == Concat(old(encoding), Columns(value))
      decreases value, 1
    {
      r := SerializeValue(value);
    }

    /** Closing a struct or a tuple appends nothing. */
    method End() returns (r: Result<()>)
      ensures r == Ok(())
    {
      r := Ok(());
    }

    /**
     * Serializing a value appends its float, int and bool leaves, in pre-order, to the
     * end of the matching columns; what the columns held before is left as it was.
     */
    method SerializeValue(v: Value) returns (r: Result<()>)
      requires WellFormedValue(v)
      modifies this
      ensures r == Ok(())
      ensures encoding == Concat(old(encoding), Columns(v))
      decreases v, 0
    {
      match v
      case F(x) => r := SerializeF64(x);
      case I(n) => r := SerializeI64(n);
      case B(p) => r := SerializeBool(p);
      case Agg(kind, ms) =>
        if kind.Struct? {
          r := SerializeStruct(kind.name, |ms|);
        } else {
          r := SerializeTuple(|ms|);
        }
        if r.Err? {
          return;
        }
        var k := 0;
        while k < |ms|
          invariant 0 <= k <= |ms|
          invariant r == Ok(())
          invariant encoding == Concat(old(encoding), ColumnsAll(ms[..k]))
        {
          assert ms[k] in ms;
          if kind.Struct? {
            r := SerializeField(kind.keys[k], ms[k]);
          } else {
            r := SerializeElement(ms[k]);
          }
          if r.Err? {
            return;
          }
          ColumnsAllAppend(ms[..k], [ms[k]]);
          ConcatAssoc(old(encoding), ColumnsAll(ms[..k]), Columns(ms[k]));
          assert ColumnsAll([ms[k]]) == Columns(ms[k]) by {
            assert [ms[k]][1..] == [];
          }
          assert ms[..k + 1] == ms[..k] + [ms[k]];
          k := k + 1;
        }
        assert ms[..k] == ms;
        r := End();
    }
  }
}
