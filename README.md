# encodable — a columnar codec, modelled in Dafny

The library turns a tree of structs and tuples into an `Encoding`. The leaves of the tree are
`f64`, `i64` or `bool`. The `Encoding` holds three flat columns, `f`, `i` and `b`, one per
leaf kind. Each column lists that kind's leaves in pre-order, depth first. The library also
rebuilds a tree from an `Encoding`, guided only by the target type's shape.

The model is split into modules that follow the program:

- `Errors` (`errors.dfy`): the error enum of `src/error.rs`, plus `Result` and `Option`.
- `Encodings` (`encoding.dfy`): the `Encoding` value, `F64` and `Int64`, and `Counts`. A
  `Counts` is a triple of naturals, one per column. It serves for column lengths, for leaf
  counts and for the deserializer's three cursors.
- `Values` (`values.dfy`): a closed replacement for serde's open data model.
  - `Value` is `F | I | B | Agg(kind, members)` and `Shape` is `FS | IS | BS | AggS(kind, members)`.
  - A kind is `Struct(name, keys)` or `Tuple`.
  - `Columns(v)` gives the pre-order leaf lists of a value. It is the specification of encoding.
  - `Width(s)` counts a shape's leaves of each kind.
- `Reading` (`reading.dfy`): decoding as pure functions.
  - `Take(e, s, c)` returns the result together with where the cursors end up, also on failure.
  - `TakeMembers` decodes the members of a struct or tuple.
  - `Decoded(e, s)` adds the `completed()`/`Incomplete` rule on top.
  - The theorems about decoding live here as well.
- `Ser` (`serializer.dfy`): class `Serializer`. It has an `encoding` field that its methods
  update by appending to one column at a time.
- `De` (`deserializer.dfy`): class `Deserializer`, class `Fields` and the method `VisitSeq`.
  - `Deserializer` holds a constant `encoding` and three `nat` cursors `fI`, `iI`, `bI`.
    `DeserializeF64`, `DeserializeI64`, `DeserializeBool`, `DeserializeStruct` and
    `DeserializeShape` are proved to agree with `Take`. `DeserializeTuple(len, ms)` is proved
    against `TakeMembers` with the source open exactly when `len > 0`. That is `Take` whenever
    `len > 0` holds exactly when `ms` is non-empty, as it does when `DeserializeShape` calls it.
  - `Fields` is the element source of a struct or tuple request.
  - `VisitSeq` stands in for serde's derived visitor.
- `Lib` (`lib.dfy`): the two entry points `Encode` and `Decode`, plus the scenarios from the
  library's tests.

Two modelling assumptions stand in for foreign code:

- A derived `Deserialize` visitor asks the element source for exactly one element per member.
  It fails with an invalid-length message when it gets `None`. This is `VisitSeq`.
- A derived `Serialize` impl for a struct passes one key per field. This is `WellFormedValue`.
  On the decoding side, `WellFormed` states the same for shapes.

`Fields` keeps a counter `i` that starts at 0 and is never incremented. So its `i >= num_fields`
cut-off is either always on (`num_fields == 0`) or never on. Of itself it never stops after N
elements: the visitor is what decides how many members are pulled. The model follows the code
here.
`Take` therefore passes `0 < NumFields(kind, |members|)` as a constant `open` flag to
`TakeMembers`. For a struct shape with no keys but with members, the traversal (`Take`)
returns `DeMessage(InvalidLength)`. `decode` returns that error only when every column is
empty; otherwise it returns `Incomplete`.

## Model

| member | source | states |
|---|---|---|
| `Encodings.EqualityIsColumnwise` | src/lib.rs:32-37 | two encodings are equal iff their float, int and bool columns are pairwise equal |
| `Values.ColumnsAllAppend` | src/serializer.rs:277-311 | the columns of a member list `a + b` are `a`'s columns followed, column by column, by `b`'s |
| `Values.KindIgnored` | src/serializer.rs:297-306 | the struct/tuple kind, the struct name and the field keys leave no trace: an aggregate's columns are its members' columns |
| `Values.ConformsWidth` | src/serializer.rs:30-43 | a value conforming to a shape has exactly `Width(s)` floats, ints and bools, so the shape alone fixes each column's length |
| `Ser.Serializer.constructor` | src/serializer.rs:6-9 | a new serializer holds the empty encoding (the derived `Default`) |
| `Ser.Serializer.Consume` | src/serializer.rs:12-14 | returns exactly the accumulated encoding |
| `Ser.Serializer.SerializeF64` | src/serializer.rs:30-33 | appends `v` to the end of `f`, leaves `i` and `b` unchanged, returns `Ok` |
| `Ser.Serializer.SerializeI64` | src/serializer.rs:35-38 | appends `v` to the end of `i`, leaves `f` and `b` unchanged, returns `Ok` |
| `Ser.Serializer.SerializeBool` | src/serializer.rs:40-43 | appends `v` to the end of `b`, leaves `f` and `i` unchanged, returns `Ok` |
| `Ser.Serializer.SerializeStruct` | src/serializer.rs:165-171 | accepts the struct, returns `Ok`, changes nothing (no `modifies`) |
| `Ser.Serializer.SerializeTuple` | src/serializer.rs:183-185 | accepts the tuple, returns `Ok`, changes nothing |
| `Ser.Serializer.SerializeElement` | src/serializer.rs:281-286 | a tuple element is appended by the same serializer: the encoding becomes the old one followed by the element's columns |
| `Ser.Serializer.SerializeField` | src/serializer.rs:297-306 | a struct field is appended the same way whatever its key: old encoding followed by the field's columns |
| `Ser.Serializer.End` | src/serializer.rs:288-310 | closing a tuple or struct returns `Ok` and appends nothing |
| `Ser.Serializer.SerializeValue` | src/serializer.rs:277-311 | serializing any well-formed value succeeds, and each column becomes its old contents followed by the value's pre-order leaves of that kind (existing entries untouched) |
| `De.Deserializer.FromEncoding` | src/deserializer.rs:16-23 | a new deserializer holds the given encoding with all three cursors at 0, all within bounds |
| `De.Deserializer.Completed` | src/deserializer.rs:25-29 | true exactly when every cursor is at its column's end, that is, when nothing of any column remains unread |
| `De.Deserializer.NextFloat` | src/deserializer.rs:31-40 | below the end: returns `f[fI]` and advances `fI` by one; at the end: `FloatIndexOutOfBounds` and `fI` unchanged; `iI` and `bI` never move; cursors stay within bounds |
| `De.Deserializer.NextInt` | src/deserializer.rs:42-51 | the same on the int column with `IntIndexOutOfBounds`, moving only `iI` |
| `De.Deserializer.NextBool` | src/deserializer.rs:53-62 | the same on the bool column with `BoolIndexOutOfBounds`, moving only `bI` |
| `De.Deserializer.DeserializeF64` | src/deserializer.rs:69-74 | result and new cursors are `Take(encoding, FS, old cursors)`: the pulled float as a leaf, or the pull's error |
| `De.Deserializer.DeserializeI64` | src/deserializer.rs:76-81 | likewise for an int leaf |
| `De.Deserializer.DeserializeBool` | src/deserializer.rs:83-88 | likewise for a bool leaf |
| `De.Deserializer.DeserializeTuple` | src/deserializer.rs:224-234 | a tuple request with element count `len` decodes `ms` in order through the same cursors, consuming nothing itself |
| `De.Deserializer.DeserializeStruct` | src/deserializer.rs:245-256 | a struct request creates a source with one element per key, ignores the name, and agrees with `Take` on the struct shape |
| `De.Deserializer.DeserializeShape` | src/deserializer.rs:69-256 | dispatch by requested shape; result and new cursors are exactly `Take(encoding, s, old cursors)`, with the cursors kept within bounds |
| `De.Fields.constructor` | src/deserializer.rs:334-341 | a new element source has the given deserializer and count, with its counter at 0 |
| `De.Fields.NextElementSeed` | src/deserializer.rs:347-356 | when `i >= numFields`: `Ok(None)` and no cursor moves; otherwise the member is decoded as `Take` says and wrapped in `Some`, and errors pass through |
| `De.VisitSeq` | src/deserializer.rs:232-233 | the visitor's members are decoded in order as `TakeMembers` says; the first error stops it, and a source handing out nothing yields the invalid-length error |
| `Reading.TakeComplete` | src/deserializer.rs:224-256 | when the columns hold a conforming value's leaves at the cursors, decoding a well-formed shape returns that value and advances each cursor by its leaf count |
| `Reading.TakeSound` | src/deserializer.rs:31-62 | a successful decode returns a value of the requested shape whose leaves are exactly what the columns hold between the old and new cursors |
| `Reading.TakeBounds` | src/deserializer.rs:31-62 | cursors within bounds stay within bounds and never move back; a failing pull leaves its own cursor at its column's end; failures are index errors or the invalid-length error, and for a well-formed shape they are index errors only |
| `Reading.RoundTrip` | src/lib.rs:99-102 | `decode(encode(v)) == v` for every value conforming to a well-formed shape |
| `Reading.ReencodeStable` | src/lib.rs:99-103 | encoding the decoded value reproduces the original encoding |
| `Reading.DecodeSound` | src/lib.rs:50-61 | whatever `decode` returns successfully conforms to the shape and encodes back to exactly the given encoding |
| `Reading.DecodeOkIff` | src/lib.rs:54-60 | for a well-formed shape, `decode` succeeds iff the encoding is the encoding of some value of that shape |
| `Reading.DecodeLengths` | src/lib.rs:56-57 | a successful `decode` implies each column's length is the shape's leaf count of that kind |
| `Reading.SurplusIncomplete` | src/lib.rs:56-57 | extra data after a conforming value's columns makes `decode` return `Incomplete`, though the traversal succeeded |
| `Reading.ShortColumnFails` | src/deserializer.rs:31-62 | when some column holds fewer entries past its cursor than the shape has leaves of that kind, the traversal fails; for a well-formed shape with only one short column, it fails with that column's own `FloatIndexOutOfBounds`, `IntIndexOutOfBounds` or `BoolIndexOutOfBounds` |
| `Reading.TakeReach` | src/deserializer.rs:31-62 | no cursor moves further than the shape's leaf count of its kind, and a pull of some kind fails only when that column is too short for the shape |
| `Reading.LongColumnIncomplete` | src/lib.rs:56-57 | for every encoding, a column longer than the shape's leaf count of its kind makes `decode` return `Incomplete` |
| `Reading.DecodeFailure` | src/lib.rs:58-60 | a failure other than `Incomplete` is the traversal's own error passed through unchanged, and for a well-formed shape it is an index error |
| `Lib.Encode` | src/lib.rs:40-47 | encoding from the empty encoding succeeds with exactly the value's float, int and bool leaves in pre-order |
| `Lib.Decode` | src/lib.rs:50-61 | returns `Decoded(e, s)`: `Incomplete` when a cursor is short of its column's end, whatever the traversal returned, else the traversal's result |
| `Lib.FlatColumns` | src/serializer.rs:352-376 | `{a: x, b: n, c: p}` encodes to `f = [x]`, `i = [n]`, `b = [p]` |
| `Lib.NestedColumns` | src/serializer.rs:406-410 | for the nested `Foo`/`Bar` struct: floats `[bar.a, bar.d.0]`, ints `[a, bar.b, bar.d.1]`, bools `[bar.c, c]` |
| `Lib.PrimitivesExample` | src/deserializer.rs:366-394 | a lone f64, i64 or bool decodes from a one-entry column to that entry |
| `Lib.FlatStructExample` | src/deserializer.rs:396-415 | `{a: 1.0, b: 2, c: true}` encodes to `[1.0]`, `[2]`, `[true]` and that encoding decodes back to it |
| `Lib.NestedStructExample` | src/serializer.rs:378-415 | the nested struct of the serializer test encodes to `f = [2.0, 8.0]`, `i = [1, 2, 9]`, `b = [false, true]` |
| `Lib.NestedDecodeExample` | src/deserializer.rs:417-448 | `f = [1.0, 8.0]`, `i = [1, 2, 9]`, `b = [false, true]` decodes to the nested struct with `bar.a = 1.0` |
| `Lib.MissingBoolExample` | src/deserializer.rs:53-62 | `{f: [1.0], i: [2], b: []}` decoded as `{f64, i64, bool}` fails with `BoolIndexOutOfBounds` |
| `Lib.SurplusFloatExample` | src/lib.rs:56-57 | `{f: [1.0, 9.9]}` read as a lone f64 yields `1.0`, but `decode` returns `Incomplete` |
| `Lib.IncompleteOverridesExample` | src/lib.rs:56-60 | a tuple of one `i64` read from `{f: [1.0]}`: the traversal fails with `IntIndexOutOfBounds`, but `decode` reports `Incomplete` |
| `Lib.FieldCountExample` | src/deserializer.rs:334-356 | the element source's counter never advances: a struct request with one key and two members decodes both, and one with no keys fails with the invalid-length error |
| `Lib.EncodeDecodeExample` | src/lib.rs:70-104 | encode, decode and re-encode: the decoded value equals the original, and the second encoding equals the first |

## Left out

- Unsupported kinds are not modelled. The source panics (`unimplemented!()`/`todo!()`) for
  narrow and unsigned integers, `f32`, strings, chars, bytes, options, unit, sequences, maps,
  enums, unit/newtype/tuple structs and identifier/any. `Value` and `Shape` have no
  constructors for them, so the model neither panics nor returns an error for them.
- serde's generic `Serialize`/`Deserialize`/`Visitor` protocol and the derive macros are
  foreign code. The closed `Value`/`Shape` datatypes replace them, the loop in
  `SerializeValue` stands in for a derived `serialize`, and `VisitSeq` stands in for a derived
  `visit_seq`.
- `Lib.Encode`, `Ser.Serializer.SerializeValue`, `Ser.Serializer.SerializeField`,
  `Ser.Serializer.SerializeElement`: require `WellFormedValue` of the value (one key per
  struct member). A derived `Serialize` impl always provides this.
- `Reading.RoundTrip`: requires `WellFormed(s)` (one key per struct member). This is what a
  derived `Deserialize` impl passes to `deserialize_struct`.
- `custom()` in `src/error.rs` is not modelled. It turns a serde message into `SerMessage` or
  `DeMessage`, and no serde message arises in the modelled subset. The one `DeMessage` the
  model produces carries the constant text `"invalid length"`, not serde's formatted text.
- Floating point is not modelled. `F64` keeps a double's bit pattern and compares it exactly.
  Rust's `==` on `f64` differs for NaN and for ±0.0, and the tests compare floats with a
  relative tolerance.
- Cursors are unbounded `nat`s, not `usize`, so overflow is not modelled. It cannot happen
  for a column held in memory.
- Borrowing is not modelled. `Deserializer.encoding` is a constant copy of the encoding,
  not a borrow, so aliasing is not modelled; the encoding still cannot change during a decode.
- Ownership transfer is not modelled. `Consume` takes the serializer by value in Rust; in the
  model, nothing forbids using the serializer afterwards.
- `serialize_struct` and `serialize_tuple` return the serializer itself in Rust. The model
  returns `Ok(())` and keeps using the same object.
- `examples/example.rs` is not part of this model. It only prints a demo.
