/**
  Client proofs for the scenarios of goptional_test.go: each method builds
  optionals the way a test does and proves, from the contracts of module
  Goptional alone, what that test asserts.
 */
module Scenarios {
  import opened Wrappers
  import opened Goptional

  /** The record the scenarios store: a greeting and a failure mark. */
  datatype Record = Record(greeting: string, fail: bool)

  function Transform(r: Record): Record { r.(greeting := "hello") }

  function Fail(r: Record): Record { r.(fail := true) }

  function CheckFailure(r: Record): Option<string> {
    if r.fail then Some("failed successfully") else None
  }

  /** Map mutates the caller's variable through the shared pointer. */
  method MapMutatesCallerValue() {
    var tt := new Cell(Record("", false));
    var opt := new Goption(tt);
    var _ := opt.Map(Transform);
    assert tt.value.greeting == "hello";
  }

  /** MapElse on an absent optional installs `fn(el())` and upgrades presence. */
  method MapElseOnAbsent() {
    var opt := new Goption<Record>(null);
    var _ := opt.MapElse(Transform, () => Record("", false));
    var v := opt.Val();
    assert v.PtrTo? && v.cell.value.greeting == "hello";
  }

  /** ExistsNil clears a present optional; a second call changes nothing. */
  method ExistsNilClears() {
    var greeting := new Cell(Record("", false));
    var opt := new Goption(greeting);
    var r := opt.ExistsNil();
    assert r == null && opt.Val().NilAny?;
    var r2 := opt.ExistsNil();
    assert r2 == null && opt.Val().NilAny? && opt.slot.Nil?;
  }

  /** Exists reports the visitor's error only after Map has set the mark. */
  method ExistsAfterMap() {
    var tt := new Cell(Record("", false));
    var opt := new Goption(tt);
    assert opt.Exists(CheckFailure) == None;
    var _ := opt.Map(Fail);
    assert opt.Exists(CheckFailure) == Some("failed successfully");
  }

  /** ValOr on an absent optional gives back the default. */
  method ValOrOnAbsent() {
    var opt := new Goption<Record>(null);
    assert opt.ValOr(Record("hello", false)) == Plain(Record("hello", false));
  }

  /** An absent optional marshals to no output. */
  method MarshalAbsent(encode: Option<Record> -> Result<Bytes, string>) {
    var opt := new Goption<Record>(null);
    assert opt.MarshalJSON(encode) == Omitted;
  }

  /** Wrapping an absent optional returns that same optional. */
  method WrapAbsentIsIdentity() {
    var opt := new Goption<Record>(null);
    var w := Wrap(opt);
    assert w == opt;
  }

  /** One and two wrappers deep, Unwrap reaches the original cell, and a
      change made through that cell is seen through the wrappers. */
  method DeeplyWrappedUnwrap() {
    var tt := new Cell(Record("", false));
    var opt := new Goption(tt);
    var _ := opt.Map(Transform);
    var opt2 := Wrap(opt);
    assert opt2.IsWrapped() && Unwrap(opt2) == tt;
    var opt3 := Wrap(opt2);
    assert opt3.IsWrapped();
    var inner := Unwrap(opt3);
    assert inner == tt && inner.value.greeting == "hello";
  }

  /** Decoding through a wrapper writes into the cell the wrapped optional shares. */
  method UnmarshalThroughWrapper(data: Bytes, decode: (Bytes, Record) -> Decoded<Record, string>)
    requires forall r :: decode(data, r) == Decoded(r.(greeting := "hello"), None)
  {
    var tt := new Cell(Record("", false));
    var opt := new Goption(tt);
    var w := Wrap(opt);
    var err := w.UnmarshalJSON(data, decode, "nil target");
    assert err == None && tt.value.greeting == "hello";
  }

  /** A change made through the wrapped optional after wrapping is seen
      through both wrappers. */
  method MutateAfterWrapping() {
    var tt := new Cell(Record("", false));
    var opt := new Goption(tt);
    var w := Wrap(opt);
    var w2 := Wrap(w);
    var _ := opt.Map(Transform);
    assert Unwrap(w2) == Unwrap(opt) && Unwrap(w2).value.greeting == "hello";
  }

  /** Clearing the wrapped optional empties what its wrapper resolves to;
      the wrapper then marshals a nil pointer instead of omitting output. */
  method ClearUnderWrapper(encode: Option<Record> -> Result<Bytes, string>) {
    var tt := new Cell(Record("", false));
    var opt := new Goption(tt);
    var w := Wrap(opt);
    var _ := opt.ExistsNil();
    assert w.ChainValid() && w.Resolvable();
    assert Unwrap(w) == null;
    assert w.MarshalJSON(encode) == FromEncoder(encode(None));
  }

  /** MapElse on a present optional runs `fn` on the caller's own variable. */
  method MapElseOnPresent() {
    var tt := new Cell(Record("", false));
    var opt := new Goption(tt);
    var _ := opt.MapElse(Transform, () => Record("", false));
    assert opt.slot == Ptr(tt) && tt.value.greeting == "hello";
  }

  /** Val of a present optional is the very pointer it was built from. */
  method ValOnPresent() {
    var tt := new Cell(Record("", false));
    var opt := new Goption(tt);
    assert opt.Val() == PtrTo(tt);
  }

  /** ValElse on an absent optional returns the fallback's value and
      installs it, so the optional is present afterwards. */
  method ValElseOnAbsent() {
    var opt := new Goption<Record>(null);
    var v := opt.ValElse(() => Record("hello", false));
    assert v == Plain(Record("hello", false));
    assert opt.Val().PtrTo? && opt.Val().cell.value.greeting == "hello";
  }

  /** After Map, marshalling encodes the updated record. */
  method MarshalAfterMap(encode: Option<Record> -> Result<Bytes, string>) {
    var tt := new Cell(Record("", false));
    var opt := new Goption(tt);
    var _ := opt.Map(Transform);
    assert opt.MarshalJSON(encode) == FromEncoder(encode(Some(Record("hello", false))));
  }

  /** Decoding into a present optional writes the caller's variable. */
  method UnmarshalIntoPresent(data: Bytes, decode: (Bytes, Record) -> Decoded<Record, string>)
    requires forall r :: decode(data, r) == Decoded(r.(greeting := "hello"), None)
  {
    var tt := new Cell(Record("", false));
    var opt := new Goption(tt);
    var err := opt.UnmarshalJSON(data, decode, "nil target");
    assert err == None && opt.Val() == PtrTo(tt) && tt.value.greeting == "hello";
  }

  /** Decoding into an absent optional reports no error and leaves it absent. */
  method UnmarshalIntoAbsent(data: Bytes, decode: (Bytes, Record) -> Decoded<Record, string>) {
    var opt := new Goption<Record>(null);
    var err := opt.UnmarshalJSON(data, decode, "nil target");
    assert err == None && opt.Val().NilAny?;
  }
}
