/**
 * The values `JSON.parse` can produce, and the two JavaScript operations the
 * merge applies to them: reading a property and testing truthiness.
 */
module Json {
  import opened Wrappers

  /**
   * A parsed JSON value. Numbers are exact reals; an object is a map because
   * `JSON.parse` keeps the last of repeated keys.
   */
  datatype Json =
    | JNull
    | JBool(b: bool)
    | JNumber(n: real)
    | JString(s: string)
    | JArray(items: seq<Json>)
    | JObject(fields: map<string, Json>)

  /**
   * JavaScript truthiness (ToBoolean): null, false, 0 and "" are falsy;
   * every array and object, even an empty one, is truthy.
   */
  function Truthy(v: Json): (b: bool)
    ensures !b <==> v == JNull || v == JBool(false) || v == JNumber(0.0) || v == JString("")
  {
    match v
    case JNull => false
    case JBool(b) => b
    case JNumber(n) => n != 0.0
    case JString(s) => s != ""
    case JArray(_) => true
    case JObject(_) => true
  }

  /**
   * The property read `v[key]` on a value that is not null, for the keys the
   * page reads (`highPriority`, `mediumPriority`, `lowPriority`, `text`): an
   * object's own field, or `undefined` (None) for a missing field and for any
   * other kind of value. Inherited and built-in keys (`length`, `toString`)
   * are not modelled. On null the read throws; callers deal with that first.
   */
  function Field(v: Json, key: string): (r: Option<Json>)
    ensures r.Some? <==> v.JObject? && key in v.fields
    ensures r.Some? ==> r.value == v.fields[key]
  {
    if v.JObject? && key in v.fields then Some(v.fields[key]) else None
  }

  /** `if (v[key])`: the field is present and truthy (`undefined` is falsy). */
  predicate TruthyField(v: Json, key: string)
  {
    Field(v, key).Some? && Truthy(Field(v, key).value)
  }
}
