/** The JSON values the configuration documents are made of, and the
    lookups and conversions the core performs on them.

    The JSON parser itself is not modelled: a document is already a value of
    `Json`. A panic of the Rust code (an `expect` on a missing key, a `panic!`
    on a value of the wrong kind, an index out of range) is the `Panic`
    alternative of `Result`. Numbers are exact `real`s. */
module Json {

  datatype Json =
    | JNull
    | JBool(b: bool)
    | JNum(n: real)
    | JStr(s: string)
    | JArr(items: seq<Json>)
    | JObj(fields: map<string, Json>)

  type Object = map<string, Json>

  datatype Option<T> = None | Some(value: T)

  /** `Panic` is the process aborting; there is no recovery in the source. */
  datatype Result<T> = Ok(value: T) | Panic {
    predicate IsFailure() { Panic? }
    function PropagateFailure<U>(): Result<U> requires Panic? { Panic }
    function Extract(): T requires Ok? { value }
  }

  const U8_LIMIT: int := 0x100
  const I32_MIN: int := -0x8000_0000
  const I32_LIMIT: int := 0x8000_0000
  const USIZE_LIMIT: int := 0x1_0000_0000_0000_0000

  type u8 = x: int | 0 <= x < U8_LIMIT

  /** A `usize` value. */
  type Index = n: nat | n < USIZE_LIMIT

  /** An `i32` value. */
  type i32 = n: int | I32_MIN <= n < I32_LIMIT

  predicate IsIntegral(r: real) { r.Floor as real == r }

  /** `as_f32`: any number. */
  function AsF32(j: Json): Option<real> {
    if j.JNum? then Some(j.n) else None
  }

  /** `as_usize`: an integral number in the 64-bit unsigned range. */
  function AsUsize(j: Json): (r: Option<Index>)
    ensures r.Some? ==> j == JNum(r.value as real)
  {
    if j.JNum? && IsIntegral(j.n) && 0 <= j.n.Floor < USIZE_LIMIT then Some(j.n.Floor) else None
  }

  /** `as_i32`: an integral number in the 32-bit signed range. */
  function AsI32(j: Json): (r: Option<i32>)
    ensures r.Some? ==> j == JNum(r.value as real)
  {
    if j.JNum? && IsIntegral(j.n) && I32_MIN <= j.n.Floor < I32_LIMIT then Some(j.n.Floor) else None
  }

  /** `as_u8`: an integral number in 0..255. */
  function AsU8(j: Json): (r: Option<u8>)
    ensures r.Some? ==> j == JNum(r.value as real)
  {
    if j.JNum? && IsIntegral(j.n) && 0 <= j.n.Floor < U8_LIMIT then Some(j.n.Floor as u8) else None
  }

  /** `as_str`: a string value. */
  function AsStr(j: Json): Option<string> {
    if j.JStr? then Some(j.s) else None
  }

  /** `obj.get(key).expect(..)` followed by a conversion that is `expect`ed too. */
  function Field<T>(obj: Object, key: string, conv: Json -> Option<T>): (r: Result<T>)
    ensures r.Ok? <==> key in obj && conv(obj[key]).Some?
    ensures r.Ok? ==> r.value == conv(obj[key]).value
  {
    if key in obj && conv(obj[key]).Some? then Ok(conv(obj[key]).value) else Panic
  }

  /** `dict.get(name)` that must be present and be a JSON object. */
  function Section(dict: Object, name: string): (r: Result<Object>)
    ensures r.Ok? <==> name in dict && dict[name].JObj?
    ensures r.Ok? ==> r.value == dict[name].fields
  {
    if name in dict && dict[name].JObj? then Ok(dict[name].fields) else Panic
  }

  /** `dict.get(name)` that must be present and be a JSON array. */
  function ArrayField(dict: Object, name: string): (r: Result<seq<Json>>)
    ensures r.Ok? <==> name in dict && dict[name].JArr?
    ensures r.Ok? ==> r.value == dict[name].items
  {
    if name in dict && dict[name].JArr? then Ok(dict[name].items) else Panic
  }

  /** A `usize` index found under `section.key`, as the block constructors read them. */
  function IndexAt(dict: Object, section: string, key: string): Result<Index> {
    var sec :- Section(dict, section);
    Field(sec, key, AsUsize)
  }

  /** An `i32` value found under `section.key`. */
  function I32At(dict: Object, section: string, key: string): Result<i32> {
    var sec :- Section(dict, section);
    Field(sec, key, AsI32)
  }

  /** An `f32` parameter found under `section.key`. */
  function RealAt(dict: Object, section: string, key: string): Result<real> {
    var sec :- Section(dict, section);
    Field(sec, key, AsF32)
  }

  /** True when every one of `keys` holds a usize under `section`. */
  predicate HasIndices(dict: Object, section: string, keys: seq<string>) {
    forall k :: 0 <= k < |keys| ==> IndexAt(dict, section, keys[k]).Ok?
  }

  /** True when every one of `keys` holds a number under `section`. */
  predicate HasReals(dict: Object, section: string, keys: seq<string>) {
    forall k :: 0 <= k < |keys| ==> RealAt(dict, section, keys[k]).Ok?
  }

  /** Converting every element of a JSON array, the `for .. in array { push(..) }`
      loops of the constructors; the first element that does not convert panics. */
  function ParseEach<T>(items: seq<Json>, conv: Json -> Result<T>): (r: Result<seq<T>>)
    ensures r.Ok? <==> forall k :: 0 <= k < |items| ==> conv(items[k]).Ok?
    ensures r.Ok? ==> |r.value| == |items|
    ensures r.Ok? ==> forall k :: 0 <= k < |items| ==> r.value[k] == conv(items[k]).value
  {
    if items == [] then Ok([])
    else
      var head :- conv(items[0]);
      var tail :- ParseEach(items[1..], conv);
      assert forall k :: 1 <= k < |items| ==> items[k] == items[1..][k - 1];
      Ok([head] + tail)
  }

  function IndexFromJson(j: Json): Result<Index> {
    if AsUsize(j).Some? then Ok(AsUsize(j).value) else Panic
  }

  /** A JSON array of usize indices found under `section.key`. */
  function IndexArrayAt(dict: Object, section: string, key: string): Result<seq<Index>> {
    var sec :- Section(dict, section);
    var items :- ArrayField(sec, key);
    ParseEach(items, IndexFromJson)
  }

  /** The JSON number of an index, used to build descriptors. */
  function Num(n: int): Json { JNum(n as real) }

  function NumArray(ns: seq<Index>): (r: seq<Json>)
    ensures |r| == |ns| && forall k :: 0 <= k < |ns| ==> r[k] == Num(ns[k])
  {
    seq(|ns|, k requires 0 <= k < |ns| => Num(ns[k]))
  }

  lemma NumArrayParses(ns: seq<Index>)
    ensures ParseEach(NumArray(ns), IndexFromJson) == Ok(ns)
  {
    var r := ParseEach(NumArray(ns), IndexFromJson);
    forall k | 0 <= k < |ns| ensures IndexFromJson(NumArray(ns)[k]) == Ok(ns[k]) {
      assert IsIntegral(ns[k] as real);
    }
    assert r.Ok?;
    assert r.value == ns;
  }
}
