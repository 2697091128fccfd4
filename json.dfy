/**
 * An already-parsed JSON value, as produced by `JSON.parse`, `YAML.parse`
 * or `request.json()`. Numbers are JavaScript doubles, modelled as reals.
 */
module JsonValue {
  import opened Wrappers

  datatype Json =
    | JNull
    | JBool(b: bool)
    | JNumber(n: real)
    | JString(s: string)
    | JArray(items: seq<Json>)
    | JObject(fields: map<string, Json>)

  /** `Number.isInteger` on a finite double. */
  predicate IsInteger(x: real) {
    x.Floor as real == x
  }

  /**
   * JavaScript property access `value.key` on a non-null value: an object's
   * own field, and `undefined` (None) for a missing key or for a value that
   * is not an object. JSON `null` is a present value here; callers that use
   * `??` or `?.` treat it like `undefined` themselves.
   */
  function Get(value: Json, key: string): (r: Option<Json>)
    ensures r.Some? <==> value.JObject? && key in value.fields
  {
    if value.JObject? && key in value.fields then Some(value.fields[key]) else None
  }

  /** `value.key ?? default`: null and undefined both fall back. */
  function GetOrDefault(value: Json, key: string, default: Json): (r: Json)
    ensures r != JNull || default == JNull
  {
    match Get(value, key)
    case Some(v) => if v.JNull? then default else v
    case None => default
  }
}
