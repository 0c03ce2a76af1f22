/**
 * Values that cross the boundary between the front end, the back end and the
 * services they call: raw bytes and parsed JSON documents.
 */
module Values {
  import opened Wrappers

  type Byte = bv8

  /**
   * A parsed JSON value. Numbers are kept as integers; an object maps each
   * key to its value (a later duplicate key replaces an earlier one, as
   * JSON.parse and json.loads both do).
   */
  datatype Json =
    | JNull
    | JBool(b: bool)
    | JNum(n: int)
    | JStr(s: string)
    | JArr(items: seq<Json>)
    | JObj(fields: map<string, Json>)

  /** JavaScript truthiness of a parsed value: null, false, 0 and "" are falsy; every array and object is truthy. */
  predicate Truthy(j: Json) {
    match j
    case JNull => false
    case JBool(b) => b
    case JNum(n) => n != 0
    case JStr(s) => s != ""
    case JArr(_) => true
    case JObj(_) => true
  }

  /** Property access `j.key`: a value for an object holding the key, undefined (None) otherwise. */
  function Get(j: Json, key: string): (r: Option<Json>)
    ensures r.Some? <==> j.JObj? && key in j.fields
    ensures r.Some? ==> r.value == j.fields[key]
  {
    if j.JObj? && key in j.fields then Some(j.fields[key]) else None
  }

  /** `a || fallback` where `a` may be undefined. */
  function OrElse(a: Option<Json>, fallback: Json): (r: Json)
    ensures a.Some? && Truthy(a.value) ==> r == a.value
    ensures !(a.Some? && Truthy(a.value)) ==> r == fallback
  {
    if a.Some? && Truthy(a.value) then a.value else fallback
  }

  /** A one-field object `{key: value}`. */
  function Single(key: string, value: Json): (r: Json)
    ensures Get(r, key) == Some(value)
  {
    JObj(map[key := value])
  }
}
