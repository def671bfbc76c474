/** The two entry points, `Encode` and `Decode`, and the scenarios of the library's tests. */
module Lib {
  import opened Errors
  import opened Encodings
  import opened Values
  import opened Reading
  import Ser
  import De

  /** Runs a fresh serializer over `v` and returns what it accumulated: `v`'s leaves, column by column, in pre-order. */
  method Encode(v: Value) returns (r: Result<Encoding>)
    requires WellFormedValue(v)
    ensures r == Ok(Columns(v))
  {
    var serializer := new Ser.Serializer();
    var res := serializer.SerializeValue(v);
    match res
    case Err(err) => return Err(err);
    case Ok(_) =>
    var e := serializer.Consume();
    assert Concat(Empty, Columns(v)) == Columns(v);
    r := Ok(e);
  }

  /**
   * Runs a fresh deserializer over `e` for shape `s`; unless every cursor then stands
   * at its column's end the answer is `Incomplete`, whatever the traversal returned.
   */
  method Decode(e: Encoding, s: Shape) returns (r: Result<Value>)
    ensures r == Decoded(e, s)
  {
    var deserializer := new De.Deserializer.FromEncoding(e);
    var res := deserializer.DeserializeShape(s);
    if !deserializer.Completed() {
      r := Err(Incomplete);
    } else {
      r := res;
    }
  }

  // Bit patterns of the doubles the scenarios use.
  const One := F64(0x3FF0_0000_0000_0000)
  const Two := F64(0x4000_0000_0000_0000)
  const Eight := F64(0x4020_0000_0000_0000)
  const NineNine := F64(0x4023_CCCC_CCCC_CCCD)

  /** The struct `{a: f64, b: i64, c: bool}`. */
  function FlatShape(): Shape {
    AggS(Struct("Foo", ["a", "b", "c"]), [FS, IS, BS])
  }

  /** `Bar {a: f64, b: i64, c: bool, d: (f64, i64)}` inside `Foo {a: i64, bar: Bar, c: bool}`. */
  function NestedShape(): Shape {
    AggS(Struct("Foo", ["a", "bar", "c"]),
         [IS, AggS(Struct("Bar", ["a", "b", "c", "d"]), [FS, IS, BS, AggS(Tuple, [FS, IS])]), BS])
  }

  function Nested(a: Int64, barA: F64, barB: Int64, barC: bool, d0: F64, d1: Int64, c: bool): Value {
    Agg(Struct("Foo", ["a", "bar", "c"]),
        [I(a), Agg(Struct("Bar", ["a", "b", "c", "d"]), [F(barA), I(barB), B(barC), Agg(Tuple, [F(d0), I(d1)])]), B(c)])
  }

  lemma ThreeColumns(x: Value, y: Value, z: Value)
    ensures ColumnsAll([x, y, z]) == Concat(Columns(x), Concat(Columns(y), Concat(Columns(z), Empty)))
  {
    assert [x, y, z][1..] == [y, z] && [y, z][1..] == [z] && [z][1..] == [];
    assert ColumnsAll([z]) == Concat(Columns(z), Empty);
    assert ColumnsAll([y, z]) == Concat(Columns(y), ColumnsAll([z]));
  }

  lemma TwoColumns(x: Value, y: Value)
    ensures ColumnsAll([x, y]) == Concat(Columns(x), Concat(Columns(y), Empty))
  {
    assert [x, y][1..] == [y] && [y][1..] == [];
    assert ColumnsAll([y]) == Concat(Columns(y), Empty);
  }

  /** A struct `{a: f64, b: i64, c: bool}` puts its one leaf of each kind in the matching column. */
  lemma FlatColumns(x: F64, n: Int64, p: bool)
    ensures Columns(Agg(Struct("Foo", ["a", "b", "c"]), [F(x), I(n), B(p)])) == Encoding([x], [n], [p])
  {
    ThreeColumns(F(x), I(n), B(p));
  }

  lemma FourColumns(x: Value, y: Value, z: Value, w: Value)
    ensures ColumnsAll([x, y, z, w]) == Concat(Columns(x), ColumnsAll([y, z, w]))
  {
  }

  /** The tuple `(f64, i64)` puts one entry in the float and one in the int column. */
  lemma PairColumns(d0: F64, d1: Int64)
    ensures Columns(Agg(Tuple, [F(d0), I(d1)])) == Encoding([d0], [d1], [])
  {
    TwoColumns(F(d0), I(d1));
  }

  /** `Bar`'s columns: its tuple member's leaves come after `bar.c`'s kind-mates. */
  lemma BarColumns(barA: F64, barB: Int64, barC: bool, d0: F64, d1: Int64)
    ensures Columns(Agg(Struct("Bar", ["a", "b", "c", "d"]), [F(barA), I(barB), B(barC), Agg(Tuple, [F(d0), I(d1)])]))
            == Encoding([barA, d0], [barB, d1], [barC])
  {
    var d := Agg(Tuple, [F(d0), I(d1)]);
    PairColumns(d0, d1);
    ThreeColumns(I(barB), B(barC), d);
    assert ColumnsAll([I(barB), B(barC), d]) == Encoding([d0], [barB, d1], [barC]);
    FourColumns(F(barA), I(barB), B(barC), d);
  }

  /**
   * The nested struct's columns: floats `[bar.a, bar.d.0]`, ints `[a, bar.b, bar.d.1]`,
   * bools `[bar.c, c]` — pre-order within each column, whatever the other columns hold.
   */
  lemma NestedColumns(a: Int64, barA: F64, barB: Int64, barC: bool, d0: F64, d1: Int64, c: bool)
    ensures Columns(Nested(a, barA, barB, barC, d0, d1, c)) == Encoding([barA, d0], [a, barB, d1], [barC, c])
  {
    var bar := Agg(Struct("Bar", ["a", "b", "c", "d"]), [F(barA), I(barB), B(barC), Agg(Tuple, [F(d0), I(d1)])]);
    BarColumns(barA, barB, barC, d0, d1);
    ThreeColumns(I(a), bar, B(c));
  }

  /** The nested shape is well formed and every `Nested(...)` value has it. */
  lemma NestedConforms(a: Int64, barA: F64, barB: Int64, barC: bool, d0: F64, d1: Int64, c: bool)
    ensures WellFormed(NestedShape()) && Conforms(Nested(a, barA, barB, barC, d0, d1, c), NestedShape())
  {
  }

  /** A lone leaf decodes from a one-entry column. */
  method PrimitivesExample(x: F64, n: Int64, p: bool) returns (rf: Result<Value>, ri: Result<Value>, rb: Result<Value>)
    ensures rf == Ok(F(x)) && ri == Ok(I(n)) && rb == Ok(B(p))
  {
    rf := Decode(Encoding([x], [], []), FS);
    ri := Decode(Encoding([], [n], []), IS);
    rb := Decode(Encoding([], [], [p]), BS);
  }

  /** `{a: 1.0, b: 2, c: true}` encodes to one entry per column, and decodes back. */
  method FlatStructExample() returns (e: Result<Encoding>, d: Result<Value>)
    ensures e == Ok(Encoding([One], [2], [true]))
    ensures d == Ok(Agg(Struct("Foo", ["a", "b", "c"]), [F(One), I(2), B(true)]))
  {
    var foo := Agg(Struct("Foo", ["a", "b", "c"]), [F(One), I(2), B(true)]);
    FlatColumns(One, 2, true);
    e := Encode(foo);
    RoundTrip(foo, FlatShape());
    d := Decode(Encoding([One], [2], [true]), FlatShape());
  }

  /** In a nested struct the outer `a` comes before `bar`'s leaves, which come before the outer `c`. */
  method NestedStructExample() returns (e: Result<Encoding>)
    ensures e == Ok(Encoding([Two, Eight], [1, 2, 9], [false, true]))
  {
    var foo := Nested(1, Two, 2, false, Eight, 9, true);
    NestedColumns(1, Two, 2, false, Eight, 9, true);
    e := Encode(foo);
  }

  /** Decoding the nested struct takes the floats, ints and bools each in their own column's order. */
  method NestedDecodeExample() returns (d: Result<Value>)
    ensures d == Ok(Nested(1, One, 2, false, Eight, 9, true))
  {
    var foo := Nested(1, One, 2, false, Eight, 9, true);
    NestedColumns(1, One, 2, false, Eight, 9, true);
    NestedConforms(1, One, 2, false, Eight, 9, true);
    RoundTrip(foo, NestedShape());
    d := Decode(Encoding([One, Eight], [1, 2, 9], [false, true]), NestedShape());
  }

  /** A struct whose bool column is empty fails on its bool field; the other cursors are at their ends, so that error is returned. */
  method MissingBoolExample() returns (d: Result<Value>)
    ensures d == Err(BoolIndexOutOfBounds)
  {
    d := Decode(Encoding([One], [2], []), FlatShape());
  }

  /** A lone double read from a two-entry column succeeds, but the decode fails with `Incomplete`. */
  method SurplusFloatExample() returns (t: Result<Value>, d: Result<Value>)
    ensures t == Ok(F(One))
    ensures d == Err(Incomplete)
  {
    var e := Encoding([One, NineNine], [], []);
    var deserializer := new De.Deserializer.FromEncoding(e);
    t := deserializer.DeserializeShape(FS);
    d := Decode(e, FS);
  }

  /**
   * A traversal error is not what decode reports while a cursor is short of its column's
   * end: a spare float outranks the missing int.
   */
  method IncompleteOverridesExample() returns (t: Result<Value>, d: Result<Value>)
    ensures t == Err(IntIndexOutOfBounds)
    ensures d == Err(Incomplete)
  {
    var e := Encoding([One], [], []);
    var deserializer := new De.Deserializer.FromEncoding(e);
    t := deserializer.DeserializeShape(AggS(Tuple, [IS]));
    d := Decode(e, AggS(Tuple, [IS]));
  }

  /**
   * The element source's counter never advances, so a struct request with fewer keys
   * than members still decodes every member, while one with no keys fails on its first
   * (here on the empty encoding, so that no leftover data turns it into `Incomplete`).
   */
  method FieldCountExample() returns (fewer: Result<Value>, none: Result<Value>)
    ensures fewer == Ok(Agg(Struct("Foo", ["a"]), [F(One), I(2)]))
    ensures none == Err(DeMessage(InvalidLength))
  {
    var e := Encoding([One], [2], []);
    assert [FS, IS][1..] == [IS] && [IS][1..] == [];
    assert Take(e, FS, Zero) == (Ok(F(One)), Counts(1, 0, 0));
    assert Take(e, IS, Counts(1, 0, 0)) == (Ok(I(2)), Counts(1, 1, 0));
    assert [I(2)] + [] == [I(2)] && [F(One)] + [I(2)] == [F(One), I(2)];
    fewer := Decode(e, AggS(Struct("Foo", ["a"]), [FS, IS]));
    none := Decode(Empty, AggS(Struct("Foo", []), [FS, IS]));
  }

  /** Encode, decode and encode again: the value and the encoding both come back unchanged. */
  method EncodeDecodeExample(v: Value, s: Shape) returns (e: Result<Encoding>, d: Result<Value>, e2: Result<Encoding>)
    requires WellFormed(s) && Conforms(v, s)
    ensures e.Ok? && d == Ok(v) && e2 == e
  {
    ConformsWellFormed(v, s);
    e := Encode(v);
    RoundTrip(v, s);
    d := Decode(e.value, s);
    e2 := Encode(d.value);
  }
}
