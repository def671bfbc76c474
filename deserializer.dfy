/**
 * The consuming side: a deserializer reads an encoding it never changes through three
 * independent cursors, one per column. The requested shape, never the data, decides
 * which column each pull reads.
 */
module De {
  import opened Errors
  import opened Encodings
  import opened Values
  import opened Reading

  class Deserializer {
    const encoding: Encoding
    var fI: nat
    var iI: nat
    var bI: nat

    /** Each cursor is at most its column's length. */
    ghost predicate Valid()
      reads this
    {
      Within(encoding, Position())
    }

    /** The three cursors. */
    function Position(): Counts
      reads this
    {
      Counts(fI, iI, bI)
    }

    /** What is still unread in each column. */
    function Remaining(): Encoding
      reads this
      requires Valid()
    {
      Encoding(encoding.f[fI..], encoding.i[iI..], encoding.b[bI..])
    }

    /** A fresh deserializer holds the given encoding with every cursor at 0. */
    constructor FromEncoding(encoding: Encoding)
      ensures this.encoding == encoding && Position() == Zero && Valid()
    {
      this.encoding := encoding;
      fI, iI, bI := 0, 0, 0;
    }

    /** Every cursor is at its column's end: nothing is left unread. */
    predicate Completed()
      reads this
      ensures Completed() ==> Position() == Lengths(encoding)
      ensures Valid() ==> (Completed() <==> Remaining() == Empty)
    {
      fI == |encoding.f| && iI == |encoding.i| && bI == |encoding.b|
    }

    /** Reads the float under the float cursor and advances that cursor alone; at the column's end it fails and moves nothing. */
    method NextFloat() returns (r: Result<F64>)
      requires Valid()
      modifies this`fI
      ensures Valid()
      ensures old(fI) < |encoding.f| ==> r == Ok(encoding.f[old(fI)]) && fI == old(fI) + 1
      ensures old(fI) >= |encoding.f| ==> r == Err(FloatIndexOutOfBounds) && fI == old(fI)
    {
      if fI < |encoding.f| {
        r := Ok(encoding.f[fI]);
        fI := fI + 1;
      } else {
        r := Err(FloatIndexOutOfBounds);
      }
    }

    method NextInt() returns (r: Result<Int64>)
      requires Valid()
      modifies this`iI
      ensures Valid()
      ensures old(iI) < |encoding.i| ==> r == Ok(encoding.i[old(iI)]) && iI == old(iI) + 1
      ensures old(iI) >= |encoding.i| ==> r == Err(IntIndexOutOfBounds) && iI == old(iI)
    {
      if iI < |encoding.i| {
        r := Ok(encoding.i[iI]);
        iI := iI + 1;
      } else {
        r := Err(IntIndexOutOfBounds);
      }
    }

    method NextBool() returns (r: Result<bool>)
      requires Valid()
      modifies this`bI
      ensures Valid()
      ensures old(bI) < |encoding.b| ==> r == Ok(encoding.b[old(bI)]) && bI == old(bI) + 1
      ensures old(bI) >= |encoding.b| ==> r == Err(BoolIndexOutOfBounds) && bI == old(bI)
    {
      if bI < |encoding.b| {
        r := Ok(encoding.b[bI]);
        bI := bI + 1;
      } else {
        r := Err(BoolIndexOutOfBounds);
      }
    }

    method DeserializeF64() returns (r: Result<Value>)
      requires Valid()
      modifies this
      ensures Valid()
      ensures (r, Position()) == Take(encoding, FS, old(Position()))
    {
      var x := NextFloat();
      match x
      case Err(err) => r := Err(err);
      case Ok(v) => r := Ok(F(v));
    }

    method DeserializeI64() returns (r: Result<Value>)
      requires Valid()
      modifies this
      ensures Valid()
      ensures (r, Position()) == Take(encoding, IS, old(Position()))
    {
      var x := NextInt();
      match x
      case Err(err) => r := Err(err);
      case Ok(v) => r := Ok(I(v));
    }

    method DeserializeBool() returns (r: Result<Value>)
      requires Valid()
      modifies this
      ensures Valid()
      ensures (r, Position()) == Take(encoding, BS, old(Position()))
    {
      var x := NextBool();
      match x
      case Err(err) => r := Err(err);
      case Ok(v) => r := Ok(B(v));
    }

    /** A tuple request hands an element source of `len` elements to the visitor, which asks for the members `ms`. */
    method DeserializeTuple(len: nat, ms: seq<Shape>) returns (r: Result<Value>)
      requires Valid()
      modifies this
      ensures Valid()
      ensures (r, Position()) == Wrap(Tuple, TakeMembers(encoding, ms, 0 < len, old(Position())))
      decreases ms, 2
    {
      var fields := new Fields(this, len);
      r := VisitSeq(fields, Tuple, ms);
    }

    /** A struct request hands an element source with one element per key to the visitor; the name is ignored. */
    method DeserializeStruct(name: string, keys: seq<string>, ms: seq<Shape>) returns (r: Result<Value>)
      requires Valid()
      modifies this
      ensures Valid()
      ensures (r, Position()) == Take(encoding, AggS(Struct(name, keys), ms), old(Position()))
      decreases ms, 2
    {
      var fields := new Fields(this, |keys|);
      r := VisitSeq(fields, Struct(name, keys), ms);
    }

    /** Decodes one value of shape `s` from the cursors onwards, as `Take` specifies. */
    method DeserializeShape(s: Shape) returns (r: Result<Value>)
      requires Valid()
      modifies this
      ensures Valid()
      ensures (r, Position()) == Take(encoding, s, old(Position()))
      decreases s, 0
    {
      match s
      case FS => r := DeserializeF64();
      case IS => r := DeserializeI64();
      case BS => r := DeserializeBool();
      case AggS(Struct(name, keys), ms) => r := DeserializeStruct(name, keys, ms);
      case AggS(Tuple, ms) => r := DeserializeTuple(|ms|, ms);
    }
  }

  /** The element source of a struct or tuple request. Its counter `i` is never advanced. */
  class Fields {
    const de: Deserializer
    const numFields: nat
    var i: nat

    constructor (de: Deserializer, numFields: nat)
      ensures this.de == de && this.numFields == numFields && i == 0
    {
      this.de := de;
      this.numFields := numFields;
      i := 0;
    }

    /**
     * Hands out no element when the counter has reached the element count; otherwise
     * decodes the next element through the same deserializer.
     */
    method NextElementSeed(seed: Shape) returns (r: Result<Option<Value>>)
      requires de.Valid()
      modifies de
      ensures de.Valid()
      ensures i >= numFields ==> r == Ok(None) && de.Position() == old(de.Position())
      ensures i < numFields ==>
                var (t, d) := Take(de.encoding, seed, old(de.Position()));
                de.Position() == d && r == (if t.Ok? then Ok(Some(t.value)) else Err(t.error))
      decreases seed, 1
    {
      if i >= numFields {
        return Ok(None);
      }
      var t := de.DeserializeShape(seed);
      r := if t.Ok? then Ok(Some(t.value)) else Err(t.error);
    }
  }

  /** The partial result `vals` followed by a later one. */
  function Prepend(vals: seq<Value>, o: (Result<seq<Value>>, Counts)): (Result<seq<Value>>, Counts) {
    match o.0
    case Ok(vs) => (Ok(vals + vs), o.1)
    case Err(err) => (Err(err), o.1)
  }

  lemma PrependNil(o: (Result<seq<Value>>, Counts))
    ensures Prepend([], o) == o
  {
    match o.0
    case Ok(vs) => assert [] + vs == vs;
    case Err(_) =>
  }

  lemma PrependPrepend(vals: seq<Value>, more: seq<Value>, o: (Result<seq<Value>>, Counts))
    ensures Prepend(vals, Prepend(more, o)) == Prepend(vals + more, o)
  {
    match o.0
    case Ok(vs) => assert vals + (more + vs) == (vals + more) + vs;
    case Err(_) =>
  }

  /**
   * The visitor of a struct or tuple with members `ms`: it asks the element source for
   * exactly one element per member, in order, fails on the first error, and fails with
   * an invalid-length message when it is handed no element.
   */
  method VisitSeq(fields: Fields, kind: Kind, ms: seq<Shape>) returns (r: Result<Value>)
    requires fields.de.Valid()
    modifies fields.de
    ensures fields.de.Valid()
    ensures (r, fields.de.Position()) ==
              Wrap(kind, TakeMembers(fields.de.encoding, ms, fields.i < fields.numFields, old(fields.de.Position())))
    decreases ms, 1
  {
    var de := fields.de;
    var e := de.encoding;
    ghost var open := fields.i < fields.numFields;
    ghost var goal := TakeMembers(e, ms, open, de.Position());
    var vals: seq<Value> := [];
    var k := 0;
    PrependNil(goal);
    while k < |ms|
      invariant 0 <= k <= |ms|
      invariant de.Valid()
      invariant open == (fields.i < fields.numFields)
      invariant goal == Prepend(vals, TakeMembers(e, ms[k..], open, de.Position()))
    {
      ghost var before := de.Position();
      var next := fields.NextElementSeed(ms[k]);
      assert ms[k..][0] == ms[k] && ms[k..][1..] == ms[k + 1..];
      match next
      case Err(err) =>
        return Err(err);
      case Ok(None) =>
        return Err(DeMessage(InvalidLength));
      case Ok(Some(v)) =>
        ghost var rest := TakeMembers(e, ms[k + 1..], open, de.Position());
        assert TakeMembers(e, ms[k..], open, before) == Prepend([v], rest);
        PrependPrepend(vals, [v], rest);
        vals := vals + [v];
        k := k + 1;
    }
    assert vals + [] == vals;
    r := Ok(Agg(kind, vals));
  }
}
