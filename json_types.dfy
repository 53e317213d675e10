/**
 * The value model of src/define_type.rs: the `JsonValue` and `Number`
 * tagged unions, the checked narrowing conversions (`TryInto`) and the
 * keyed lookup `at`.
 */
module JsonTypes {
  import opened Results

  const I64_MIN: int := -0x8000_0000_0000_0000
  const I64_MAX: int := 0x7FFF_FFFF_FFFF_FFFF

  /** Rust's `i64`. */
  type i64 = x: int | I64_MIN <= x <= I64_MAX

  /**
   * `Number::Float` carries the token text its `f64` was parsed from:
   * IEEE arithmetic is not part of this model.
   */
  datatype Number = Int(whole: i64) | Float(text: string)

  datatype JsonValue =
    | String(str: string)
    | Number(num: Number)
    | Bool(flag: bool)
    | Null
    | Object(fields: map<string, JsonValue>)
    | Array(items: seq<JsonValue>)

  /** The unit error every conversion reports on a tag mismatch. */
  datatype TypeUnmatchedError = TypeUnmatchedError

  /**
   * `at` reports `TypeUnmatched` for a non-object receiver. `KeyNotFound`
   * stands for the panic of indexing a `HashMap` with an absent key.
   */
  datatype AtError = TypeUnmatched | KeyNotFound

  /** `Number -> f64`: only `Float` narrows, and yields its own payload. */
  function AsFloat(n: Number): (r: Result<string, TypeUnmatchedError>)
    ensures r.Ok? <==> n.Float?
    ensures r.Ok? ==> n == Float(r.value)
  {
    if n.Float? then Ok(n.text) else Err(TypeUnmatchedError)
  }

  /** `Number -> i64`: only `Int` narrows, and yields its own payload. */
  function AsInt(n: Number): (r: Result<i64, TypeUnmatchedError>)
    ensures r.Ok? <==> n.Int?
    ensures r.Ok? ==> n == Int(r.value)
  {
    if n.Int? then Ok(n.whole) else Err(TypeUnmatchedError)
  }

  /** `JsonValue -> String`. */
  function AsString(v: JsonValue): (r: Result<string, TypeUnmatchedError>)
    ensures r.Ok? <==> v.String?
    ensures r.Ok? ==> v == String(r.value)
  {
    if v.String? then Ok(v.str) else Err(TypeUnmatchedError)
  }

  /** `JsonValue -> Number`. */
  function AsNumber(v: JsonValue): (r: Result<Number, TypeUnmatchedError>)
    ensures r.Ok? <==> v.Number?
    ensures r.Ok? ==> v == JsonValue.Number(r.value)
  {
    if v.Number? then Ok(v.num) else Err(TypeUnmatchedError)
  }

  /** `JsonValue -> bool`. */
  function AsBool(v: JsonValue): (r: Result<bool, TypeUnmatchedError>)
    ensures r.Ok? <==> v.Bool?
    ensures r.Ok? ==> v == Bool(r.value)
  {
    if v.Bool? then Ok(v.flag) else Err(TypeUnmatchedError)
  }

  /** `JsonValue -> HashMap<String, JsonValue>`. */
  function AsObject(v: JsonValue): (r: Result<map<string, JsonValue>, TypeUnmatchedError>)
    ensures r.Ok? <==> v.Object?
    ensures r.Ok? ==> v == Object(r.value)
  {
    if v.Object? then Ok(v.fields) else Err(TypeUnmatchedError)
  }

  /** `JsonValue -> Vec<JsonValue>`. */
  function AsArray(v: JsonValue): (r: Result<seq<JsonValue>, TypeUnmatchedError>)
    ensures r.Ok? <==> v.Array?
    ensures r.Ok? ==> v == Array(r.value)
  {
    if v.Array? then Ok(v.items) else Err(TypeUnmatchedError)
  }

  /** `JsonValue::at`: keyed lookup, defined on objects only. */
  function At(v: JsonValue, key: string): (r: Result<JsonValue, AtError>)
    ensures !v.Object? ==> r == Err(TypeUnmatched)
    ensures v.Object? ==> (r.Ok? <==> key in v.fields)
    ensures r.Ok? ==> v.Object? && v.fields[key] == r.value && r.value < v
    ensures r.Err? ==> (r.error == KeyNotFound <==> v.Object?)
  {
    match v
    case Object(fields) => if key in fields then Ok(fields[key]) else Err(KeyNotFound)
    case _ => Err(TypeUnmatched)
  }

  /** How many of the five `JsonValue` conversions succeed on `v`. */
  function Successes(v: JsonValue): nat {
    (if AsString(v).Ok? then 1 else 0) + (if AsNumber(v).Ok? then 1 else 0)
    + (if AsBool(v).Ok? then 1 else 0) + (if AsObject(v).Ok? then 1 else 0)
    + (if AsArray(v).Ok? then 1 else 0)
  }

  /** No value narrows to two types, and `Null` narrows to none. */
  lemma AtMostOneConversion(v: JsonValue)
    ensures Successes(v) <= 1
    ensures v.Null? <==> Successes(v) == 0
  {
  }

  /** Exactly one of the two numeric conversions succeeds: no Int/Float coercion. */
  lemma NoNumericCoercion(n: Number)
    ensures AsInt(n).Ok? != AsFloat(n).Ok?
  {
  }

  /** A chain of lookups `v.at(k0)?.at(k1)?…`, stopping at the first error. */
  function AtPath(v: JsonValue, keys: seq<string>): Result<JsonValue, AtError> {
    if keys == [] then Ok(v)
    else
      var child :- At(v, keys[0]);
      AtPath(child, keys[1..])
  }

  /**
   * A non-empty chain of lookups that succeeds starts at an object and lands
   * strictly inside it.
   */
  lemma {:induction false} AtPathDescends(v: JsonValue, keys: seq<string>)
    requires keys != []
    ensures AtPath(v, keys).Ok? ==> AtPath(v, keys).value < v
    ensures AtPath(v, keys).Ok? ==> v.Object?
  {
    var first := At(v, keys[0]);
    if first.Ok? && |keys| > 1 {
      AtPathDescends(first.value, keys[1..]);
    }
  }
}
