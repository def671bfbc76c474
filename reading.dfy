/**
 * What a decode computes, as pure functions on an encoding and three cursors: the
 * specification the deserializer's methods are proved against, and the theorems
 * about decoding (round trip, soundness, cursor bounds, where errors arise).
 */
module Reading {
  import opened Errors
  import opened Encodings
  import opened Values

  /** The message of the error the struct/tuple visitor raises when it is handed no element. */
  const InvalidLength := "invalid length"

  /** `col` holds `w` starting at position `pos`. */
  predicate Holds<T(==)>(col: seq<T>, pos: nat, w: seq<T>) {
    pos + |w| <= |col| && col[pos..pos + |w|] == w
  }

  /** Each column of `e` holds the matching column of `w` at its own cursor in `c`. */
  predicate At(e: Encoding, c: Counts, w: Encoding) {
    Holds(e.f, c.f, w.f) && Holds(e.i, c.i, w.i) && Holds(e.b, c.b, w.b)
  }

  /** No cursor is past its column's end. */
  predicate Within(e: Encoding, c: Counts) {
    c.f <= |e.f| && c.i <= |e.i| && c.b <= |e.b|
  }

  /** No cursor of `d` is behind its counterpart in `c`. */
  predicate NotBehind(c: Counts, d: Counts) {
    c.f <= d.f && c.i <= d.i && c.b <= d.b
  }

  /** The number of elements the element source of a struct or tuple request is created with. */
  function NumFields(k: Kind, len: nat): nat {
    match k
    case Struct(_, keys) => |keys|
    case Tuple => len
  }

  /** The result of an aggregate request, built from the results of its members. */
  function Wrap(k: Kind, o: (Result<seq<Value>>, Counts)): (Result<Value>, Counts) {
    match o.0
    case Ok(vs) => (Ok(Agg(k, vs)), o.1)
    case Err(err) => (Err(err), o.1)
  }

  /**
   * Decoding one value of shape `s` with the cursors at `c`: the result and where the
   * cursors end up, also on failure. A leaf reads its column at its cursor and advances
   * that cursor only; it fails, moving nothing, when that cursor is at the column's end.
   */
  function Take(e: Encoding, s: Shape, c: Counts): (Result<Value>, Counts)
    decreases s, 1
  {
    match s
    case FS =>
      if c.f < |e.f| then (Ok(F(e.f[c.f])), c.(f := c.f + 1)) else (Err(FloatIndexOutOfBounds), c)
    case IS =>
      if c.i < |e.i| then (Ok(I(e.i[c.i])), c.(i := c.i + 1)) else (Err(IntIndexOutOfBounds), c)
    case BS =>
      if c.b < |e.b| then (Ok(B(e.b[c.b])), c.(b := c.b + 1)) else (Err(BoolIndexOutOfBounds), c)
    case AggS(k, ms) =>
      // The element source's counter starts at 0 and is never advanced, so it
      // stays open for every element exactly when it was created with a positive count.
      Wrap(k, TakeMembers(e, ms, 0 < NumFields(k, |ms|), c))
  }

  /**
   * Decoding the members `ms` in order through the same cursors, stopping at the first
   * failure. `open` tells whether the element source still hands out elements; when it
   * does not, the visitor fails on the first member it asks for.
   */
  function TakeMembers(e: Encoding, ms: seq<Shape>, open: bool, c: Counts): (Result<seq<Value>>, Counts)
    decreases ms, 0
  {
    if ms == [] then (Ok([]), c)
    else if !open then (Err(DeMessage(InvalidLength)), c)
    else
      match Take(e, ms[0], c)
      case (Err(err), d) => (Err(err), d)
      case (Ok(v), d) =>
        match TakeMembers(e, ms[1..], open, d)
        case (Err(err), d') => (Err(err), d')
        case (Ok(vs), d') => (Ok([v] + vs), d')
  }

  /**
   * Decoding `e` as shape `s`: the cursors start at zero, and whatever the traversal
   * returned, the result is `Incomplete` unless every cursor reached its column's end.
   */
  function Decoded(e: Encoding, s: Shape): Result<Value> {
    var (r, d) := Take(e, s, Zero);
    if d != Lengths(e) then Err(Incomplete) else r
  }

  /** A column holds a concatenation exactly when it holds both parts, one after the other. */
  lemma HoldsConcat<T>(col: seq<T>, pos: nat, w1: seq<T>, w2: seq<T>)
    ensures Holds(col, pos, w1 + w2) <==> Holds(col, pos, w1) && Holds(col, pos + |w1|, w2)
  {
    var n1, n2 := |w1|, |w2|;
    if pos + n1 + n2 <= |col| {
      assert col[pos..pos + n1 + n2] == col[pos..pos + n1] + col[pos + n1..pos + n1 + n2];
      if col[pos..pos + n1 + n2] == w1 + w2 {
        assert col[pos..pos + n1] == (w1 + w2)[..n1];
        assert col[pos + n1..pos + n1 + n2] == (w1 + w2)[n1..];
      }
    }
  }

  lemma AtConcat(e: Encoding, c: Counts, w1: Encoding, w2: Encoding)
    ensures At(e, c, Concat(w1, w2)) <==> At(e, c, w1) && At(e, Plus(c, Lengths(w1)), w2)
  {
    HoldsConcat(e.f, c.f, w1.f, w2.f);
    HoldsConcat(e.i, c.i, w1.i, w2.i);
    HoldsConcat(e.b, c.b, w1.b, w2.b);
  }

  /** Every encoding holds itself from the start. */
  lemma AtWhole(e: Encoding)
    ensures At(e, Zero, e)
  {
  }

  /**
   * Completeness: when the columns hold a conforming value's leaves at the cursors,
   * decoding yields exactly that value and advances each cursor past its leaves.
   */
  lemma {:induction false} TakeComplete(e: Encoding, s: Shape, v: Value, c: Counts)
    requires WellFormed(s) && Conforms(v, s) && At(e, c, Columns(v))
    ensures Take(e, s, c) == (Ok(v), Plus(c, Lengths(Columns(v))))
    decreases s, 1
  {
    match s
    case FS => assert e.f[c.f] == e.f[c.f..c.f + 1][0];
    case IS => assert e.i[c.i] == e.i[c.i..c.i + 1][0];
    case BS => assert e.b[c.b] == e.b[c.b..c.b + 1][0];
    case AggS(k, ms) =>
      TakeMembersComplete(e, ms, v.members, 0 < NumFields(k, |ms|), c);
  }

  lemma {:induction false} TakeMembersComplete(e: Encoding, ms: seq<Shape>, vs: seq<Value>, open: bool, c: Counts)
    requires open || ms == []
    requires WellFormedAll(ms) && ConformsAll(vs, ms) && At(e, c, ColumnsAll(vs))
    ensures TakeMembers(e, ms, open, c) == (Ok(vs), Plus(c, Lengths(ColumnsAll(vs))))
    decreases ms, 0
  {
    if ms != [] {
      var w0 := Columns(vs[0]);
      AtConcat(e, c, w0, ColumnsAll(vs[1..]));
      TakeComplete(e, ms[0], vs[0], c);
      TakeMembersComplete(e, ms[1..], vs[1..], open, Plus(c, Lengths(w0)));
      assert [vs[0]] + vs[1..] == vs;
    }
  }

  /**
   * Soundness: whatever a successful decode returns conforms to the shape, and the
   * columns hold exactly its leaves between the old and the new cursors.
   */
  lemma {:induction false} TakeSound(e: Encoding, s: Shape, c: Counts)
    requires Within(e, c)
    ensures Take(e, s, c).0.Ok? ==>
              var v := Take(e, s, c).0.value;
              Conforms(v, s) && At(e, c, Columns(v)) && Take(e, s, c).1 == Plus(c, Lengths(Columns(v)))
    decreases s, 1
  {
    match s
    case FS =>
      if c.f < |e.f| {
        assert e.f[c.f..c.f + 1] == [e.f[c.f]];
        assert e.i[c.i..c.i] == [] && e.b[c.b..c.b] == [];
      }
    case IS =>
      if c.i < |e.i| {
        assert e.i[c.i..c.i + 1] == [e.i[c.i]];
        assert e.f[c.f..c.f] == [] && e.b[c.b..c.b] == [];
      }
    case BS =>
      if c.b < |e.b| {
        assert e.b[c.b..c.b + 1] == [e.b[c.b]];
        assert e.f[c.f..c.f] == [] && e.i[c.i..c.i] == [];
      }
    case AggS(k, ms) =>
      TakeMembersSound(e, ms, 0 < NumFields(k, |ms|), c);
  }

  lemma {:induction false} TakeMembersSound(e: Encoding, ms: seq<Shape>, open: bool, c: Counts)
    requires Within(e, c)
    ensures TakeMembers(e, ms, open, c).0.Ok? ==>
              var vs := TakeMembers(e, ms, open, c).0.value;
              ConformsAll(vs, ms) && At(e, c, ColumnsAll(vs)) &&
              TakeMembers(e, ms, open, c).1 == Plus(c, Lengths(ColumnsAll(vs)))
    decreases ms, 0
  {
    if ms == [] {
      assert e.f[c.f..c.f] == [] && e.i[c.i..c.i] == [] && e.b[c.b..c.b] == [];
    } else if open {
      TakeSound(e, ms[0], c);
      var (r, d) := Take(e, ms[0], c);
      if r.Ok? {
        TakeBounds(e, ms[0], c);
        TakeMembersSound(e, ms[1..], open, d);
        var (rs, d') := TakeMembers(e, ms[1..], open, d);
        if rs.Ok? {
          var vs := [r.value] + rs.value;
          assert vs[0] == r.value && vs[1..] == rs.value;
          AtConcat(e, c, Columns(r.value), ColumnsAll(rs.value));
        }
      }
    }
  }

  /**
   * Cursor bounds: cursors that start within their columns stay within them and never
   * move back. A failed pull leaves its own cursor at its column's end, and a failure
   * other than an index error is the invalid-length error and needs a shape that is not
   * well formed.
   */
  lemma {:induction false} TakeBounds(e: Encoding, s: Shape, c: Counts)
    requires Within(e, c)
    ensures var (r, d) := Take(e, s, c);
            Within(e, d) && NotBehind(c, d) &&
            (r == Err(FloatIndexOutOfBounds) ==> d.f == |e.f|) &&
            (r == Err(IntIndexOutOfBounds) ==> d.i == |e.i|) &&
            (r == Err(BoolIndexOutOfBounds) ==> d.b == |e.b|) &&
            (r.Err? ==> IsIndexError(r.error) || r.error == DeMessage(InvalidLength)) &&
            (r.Err? && WellFormed(s) ==> IsIndexError(r.error))
    decreases s, 1
  {
    match s
    case FS =>
    case IS =>
    case BS =>
    case AggS(k, ms) => TakeMembersBounds(e, ms, 0 < NumFields(k, |ms|), c);
  }

  lemma {:induction false} TakeMembersBounds(e: Encoding, ms: seq<Shape>, open: bool, c: Counts)
    requires Within(e, c)
    ensures var (r, d) := TakeMembers(e, ms, open, c);
            Within(e, d) && NotBehind(c, d) &&
            (r == Err(FloatIndexOutOfBounds) ==> d.f == |e.f|) &&
            (r == Err(IntIndexOutOfBounds) ==> d.i == |e.i|) &&
            (r == Err(BoolIndexOutOfBounds) ==> d.b == |e.b|) &&
            (r.Err? ==> IsIndexError(r.error) || r.error == DeMessage(InvalidLength)) &&
            (r.Err? && WellFormedAll(ms) && (open || ms == []) ==> IsIndexError(r.error))
    decreases ms, 0
  {
    if ms != [] && open {
      TakeBounds(e, ms[0], c);
      var (r, d) := Take(e, ms[0], c);
      if r.Ok? {
        TakeMembersBounds(e, ms[1..], open, d);
      }
    }
  }

  /**
   * Reach: no cursor moves past its starting position plus the shape's leaf count of its
   * kind, and a pull of some kind fails only when that column holds fewer entries past its
   * cursor than the shape has leaves of that kind.
   */
  lemma {:induction false} TakeReach(e: Encoding, s: Shape, c: Counts)
    requires Within(e, c)
    ensures var (r, d) := Take(e, s, c);
            d.f <= c.f + Width(s).f && d.i <= c.i + Width(s).i && d.b <= c.b + Width(s).b &&
            (r == Err(FloatIndexOutOfBounds) ==> c.f + Width(s).f > |e.f|) &&
            (r == Err(IntIndexOutOfBounds) ==> c.i + Width(s).i > |e.i|) &&
            (r == Err(BoolIndexOutOfBounds) ==> c.b + Width(s).b > |e.b|)
    decreases s, 1
  {
    match s
    case FS =>
    case IS =>
    case BS =>
    case AggS(k, ms) => TakeMembersReach(e, ms, 0 < NumFields(k, |ms|), c);
  }

  lemma {:induction false} TakeMembersReach(e: Encoding, ms: seq<Shape>, open: bool, c: Counts)
    requires Within(e, c)
    ensures var (r, d) := TakeMembers(e, ms, open, c);
            d.f <= c.f + WidthAll(ms).f && d.i <= c.i + WidthAll(ms).i && d.b <= c.b + WidthAll(ms).b &&
            (r == Err(FloatIndexOutOfBounds) ==> c.f + WidthAll(ms).f > |e.f|) &&
            (r == Err(IntIndexOutOfBounds) ==> c.i + WidthAll(ms).i > |e.i|) &&
            (r == Err(BoolIndexOutOfBounds) ==> c.b + WidthAll(ms).b > |e.b|)
    decreases ms, 0
  {
    if ms != [] && open {
      TakeReach(e, ms[0], c);
      var (r, d) := Take(e, ms[0], c);
      if r.Ok? {
        TakeSound(e, ms[0], c);
        ConformsWidth(r.value, ms[0]);
        TakeBounds(e, ms[0], c);
        TakeMembersReach(e, ms[1..], open, d);
      }
    }
  }

  /** Round trip: decoding a conforming value's columns as its shape gives the value back. */
  lemma RoundTrip(v: Value, s: Shape)
    requires WellFormed(s) && Conforms(v, s)
    ensures Decoded(Columns(v), s) == Ok(v)
  {
    var e := Columns(v);
    AtWhole(e);
    TakeComplete(e, s, v, Zero);
  }

  /** Re-encode stability: encoding the decoded value reproduces the same encoding. */
  lemma ReencodeStable(v: Value, s: Shape)
    requires WellFormed(s) && Conforms(v, s)
    ensures Decoded(Columns(v), s).Ok? && Columns(Decoded(Columns(v), s).value) == Columns(v)
  {
    RoundTrip(v, s);
  }

  /** A successful decode returns a value of the shape whose columns are the whole encoding. */
  lemma DecodeSound(e: Encoding, s: Shape)
    ensures Decoded(e, s).Ok? ==> Conforms(Decoded(e, s).value, s) && Columns(Decoded(e, s).value) == e
  {
    TakeSound(e, s, Zero);
    var (r, d) := Take(e, s, Zero);
    if d == Lengths(e) && r.Ok? {
      var w := Columns(r.value);
      assert e.f[0..|w.f|] == e.f && e.i[0..|w.i|] == e.i && e.b[0..|w.b|] == e.b;
    }
  }

  /** For a well-formed shape, decode succeeds exactly on the encodings of the shape's values. */
  lemma DecodeOkIff(e: Encoding, s: Shape)
    requires WellFormed(s)
    ensures Decoded(e, s).Ok? <==> exists v :: Conforms(v, s) && Columns(v) == e
  {
    DecodeSound(e, s);
    if v :| Conforms(v, s) && Columns(v) == e {
      RoundTrip(v, s);
    }
  }

  /** A decode succeeds only if every column has exactly as many entries as the shape has leaves of that kind. */
  lemma DecodeLengths(e: Encoding, s: Shape)
    ensures Decoded(e, s).Ok? ==> Lengths(e) == Width(s)
  {
    DecodeSound(e, s);
    if Decoded(e, s).Ok? {
      ConformsWidth(Decoded(e, s).value, s);
    }
  }

  /**
   * Surplus: data left over after a conforming value still lets the traversal return the
   * value, yet makes the decode fail with Incomplete.
   */
  lemma SurplusIncomplete(v: Value, s: Shape, extra: Encoding)
    requires WellFormed(s) && Conforms(v, s) && extra != Empty
    ensures Take(Concat(Columns(v), extra), s, Zero).0 == Ok(v)
    ensures Decoded(Concat(Columns(v), extra), s) == Err(Incomplete)
  {
    var e := Concat(Columns(v), extra);
    AtWhole(e);
    AtConcat(e, Zero, Columns(v), extra);
    TakeComplete(e, s, v, Zero);
  }

  /**
   * Exhaustion: when some column holds fewer entries past its cursor than the shape has
   * leaves of that kind, the traversal fails; for a well-formed shape with only one short
   * column, it fails with that column's index error.
   */
  lemma ShortColumnFails(e: Encoding, s: Shape, c: Counts)
    requires Within(e, c)
    requires c.f + Width(s).f > |e.f| || c.i + Width(s).i > |e.i| || c.b + Width(s).b > |e.b|
    ensures Take(e, s, c).0.Err?
    ensures WellFormed(s) && c.i + Width(s).i <= |e.i| && c.b + Width(s).b <= |e.b| ==>
              Take(e, s, c).0 == Err(FloatIndexOutOfBounds)
    ensures WellFormed(s) && c.f + Width(s).f <= |e.f| && c.b + Width(s).b <= |e.b| ==>
              Take(e, s, c).0 == Err(IntIndexOutOfBounds)
    ensures WellFormed(s) && c.f + Width(s).f <= |e.f| && c.i + Width(s).i <= |e.i| ==>
              Take(e, s, c).0 == Err(BoolIndexOutOfBounds)
  {
    TakeSound(e, s, c);
    TakeBounds(e, s, c);
    TakeReach(e, s, c);
    var r := Take(e, s, c).0;
    if r.Ok? {
      ConformsWidth(r.value, s);
    }
  }

  /**
   * Surplus, for every encoding: a column longer than the shape has leaves of its kind
   * can never be read to its end, so the decode fails with Incomplete.
   */
  lemma LongColumnIncomplete(e: Encoding, s: Shape)
    requires |e.f| > Width(s).f || |e.i| > Width(s).i || |e.b| > Width(s).b
    ensures Decoded(e, s) == Err(Incomplete)
  {
    TakeReach(e, s, Zero);
  }

  /**
   * Exhaustion: when the traversal fails and every cursor is at its column's end, the
   * decode returns that failure; for a well-formed shape it is an index error whose
   * column was read to its end.
   */
  lemma DecodeFailure(e: Encoding, s: Shape)
    ensures Decoded(e, s).Err? && Decoded(e, s).error != Incomplete ==>
              Decoded(e, s) == Take(e, s, Zero).0 &&
              (WellFormed(s) ==> IsIndexError(Decoded(e, s).error))
  {
    TakeBounds(e, s, Zero);
  }
}
