/**
 * The values the codec handles and the shapes it decodes into: a closed replacement
 * for the generic traversal protocol. A leaf is a double, a 64-bit integer or a bool;
 * an aggregate is a struct (with its name and field names) or a tuple, holding its
 * members in declaration order.
 */
module Values {
  import opened Encodings

  datatype Kind = Struct(name: string, keys: seq<string>) | Tuple

  datatype Value =
    | F(x: F64)
    | I(n: Int64)
    | B(p: bool)
    | Agg(kind: Kind, members: seq<Value>)

  /** What a decode is asked to rebuild: the target type's layout. */
  datatype Shape =
    | FS
    | IS
    | BS
    | AggS(kind: Kind, members: seq<Shape>)

  /** `v` has shape `s`: same leaf kinds, same aggregate kinds, members pairwise conforming. */
  predicate Conforms(v: Value, s: Shape)
    decreases s, 1
  {
    match s
    case FS => v.F?
    case IS => v.I?
    case BS => v.B?
    case AggS(k, ms) => v.Agg? && v.kind == k && ConformsAll(v.members, ms)
  }

  predicate ConformsAll(vs: seq<Value>, ms: seq<Shape>)
    decreases ms, 0
  {
    |vs| == |ms| && (ms == [] || (Conforms(vs[0], ms[0]) && ConformsAll(vs[1..], ms[1..])))
  }

  /** A struct names exactly one key per member, as a derived implementation always does. */
  predicate KindFits(k: Kind, n: nat) {
    k.Struct? ==> |k.keys| == n
  }

  predicate WellFormed(s: Shape)
    decreases s, 1
  {
    match s
    case AggS(k, ms) => KindFits(k, |ms|) && WellFormedAll(ms)
    case _ => true
  }

  predicate WellFormedAll(ms: seq<Shape>)
    decreases ms, 0
  {
    ms == [] || (WellFormed(ms[0]) && WellFormedAll(ms[1..]))
  }

  predicate WellFormedValue(v: Value)
    decreases v
  {
    match v
    case Agg(k, ms) => KindFits(k, |ms|) && forall m :: m in ms ==> WellFormedValue(m)
    case _ => true
  }

  /** The pre-order, depth-first lists of `v`'s float, int and bool leaves. */
  function Columns(v: Value): Encoding
    decreases v, 1
  {
    match v
    case F(x) => Encoding([x], [], [])
    case I(n) => Encoding([], [n], [])
    case B(p) => Encoding([], [], [p])
    case Agg(_, ms) => ColumnsAll(ms)
  }

  function ColumnsAll(vs: seq<Value>): Encoding
    decreases vs, 0
  {
    if vs == [] then Empty else Concat(Columns(vs[0]), ColumnsAll(vs[1..]))
  }

  /** How many leaves of each kind a value of shape `s` has. */
  function Width(s: Shape): Counts
    decreases s, 1
  {
    match s
    case FS => Counts(1, 0, 0)
    case IS => Counts(0, 1, 0)
    case BS => Counts(0, 0, 1)
    case AggS(_, ms) => WidthAll(ms)
  }

  function WidthAll(ms: seq<Shape>): Counts
    decreases ms, 0
  {
    if ms == [] then Zero else Plus(Width(ms[0]), WidthAll(ms[1..]))
  }

  /** Per-column concatenation: the columns of a member list are its parts' columns, in order. */
  lemma {:induction false} ColumnsAllAppend(a: seq<Value>, b: seq<Value>)
    ensures ColumnsAll(a + b) == Concat(ColumnsAll(a), ColumnsAll(b))
    decreases a
  {
    if a == [] {
      assert a + b == b;
    } else {
      assert (a + b)[0] == a[0] && (a + b)[1..] == a[1..] + b;
      ColumnsAllAppend(a[1..], b);
      ConcatAssoc(Columns(a[0]), ColumnsAll(a[1..]), ColumnsAll(b));
    }
  }

  /** An aggregate's kind, name and field keys leave no trace in its columns. */
  lemma KindIgnored(k1: Kind, k2: Kind, ms: seq<Value>)
    ensures Columns(Agg(k1, ms)) == Columns(Agg(k2, ms)) == ColumnsAll(ms)
  {
  }

  /** The shape alone fixes how long each column of a conforming value is. */
  lemma {:induction false} ConformsWidth(v: Value, s: Shape)
    requires Conforms(v, s)
    ensures Lengths(Columns(v)) == Width(s)
    decreases s, 1
  {
    match s
    case FS =>
    case IS =>
    case BS =>
    case AggS(_, ms) => ConformsAllWidth(v.members, ms);
  }

  lemma {:induction false} ConformsAllWidth(vs: seq<Value>, ms: seq<Shape>)
    requires ConformsAll(vs, ms)
    ensures Lengths(ColumnsAll(vs)) == WidthAll(ms)
    decreases ms, 0
  {
    if ms != [] {
      ConformsWidth(vs[0], ms[0]);
      ConformsAllWidth(vs[1..], ms[1..]);
    }
  }

  /** A value conforming to a well-formed shape is itself well formed. */
  lemma {:induction false} ConformsWellFormed(v: Value, s: Shape)
    requires WellFormed(s) && Conforms(v, s)
    ensures WellFormedValue(v)
    decreases s, 1
  {
    match s
    case FS =>
    case IS =>
    case BS =>
    case AggS(_, ms) => ConformsAllWellFormed(v.members, ms);
  }

  lemma {:induction false} ConformsAllWellFormed(vs: seq<Value>, ms: seq<Shape>)
    requires WellFormedAll(ms) && ConformsAll(vs, ms)
    ensures forall m :: m in vs ==> WellFormedValue(m)
    decreases ms, 0
  {
    if ms != [] {
      ConformsWellFormed(vs[0], ms[0]);
      ConformsAllWellFormed(vs[1..], ms[1..]);
      assert vs == [vs[0]] + vs[1..];
    }
  }
}
