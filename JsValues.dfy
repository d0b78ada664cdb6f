/** JavaScript values as the form builder sees them: `undefined`/`null` as an
    absent Option, JSON values for attributes the builder only copies, and the
    truthiness test behind `x || fallback`, `filter(Boolean)` and `if (x)`. */
module JsValues {

  /** `None` stands for a missing property (`undefined`) or `null`. */
  datatype Option<T> = None | Some(value: T) {
    function GetOr(default: T): T {
      match this
      case Some(v) => v
      case None => default
    }
  }

  /** A JSON value. Numbers are integers; floating point is not modelled. */
  datatype Json =
    | JNull
    | JBool(b: bool)
    | JNumber(n: int)
    | JString(s: string)
    | JArray(items: seq<Json>)
    | JObject(members: map<string, Json>)

  /** JavaScript truthiness of a JSON value: null, false, 0 and "" are falsy. */
  predicate Truthy(v: Json) {
    match v
    case JNull => false
    case JBool(b) => b
    case JNumber(n) => n != 0
    case JString(s) => s != ""
    case JArray(_) => true
    case JObject(_) => true
  }

  /** Truthiness of an optional string: undefined, null and "" are falsy. */
  predicate Present(o: Option<string>) {
    o.Some? && o.value != ""
  }

  /** Truthiness of an optional boolean flag. */
  predicate IsSet(o: Option<bool>) {
    o == Some(true)
  }

  /** `x || null` for an optional JSON attribute. */
  function OrNull(o: Option<Json>): (r: Json)
    ensures r == JNull || Truthy(r)
    ensures o.Some? && Truthy(o.value) ==> r == o.value
    ensures !(o.Some? && Truthy(o.value)) ==> r == JNull
  {
    if o.Some? && Truthy(o.value) then o.value else JNull
  }

  /** `s || null` for an optional string; `None` in the result is `null`. */
  function StringOrNull(o: Option<string>): (r: Option<string>)
    ensures r.Some? <==> Present(o)
    ensures r.Some? ==> r == o
  {
    if Present(o) then o else None
  }
}
