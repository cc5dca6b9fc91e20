/** A JSON value as JavaScript sees it after parsing a response body, with the few
    operations the error code applies to it: property lookup, truthiness and `??`.
    Numbers are integers; a missing property is `None` (JavaScript's `undefined`). */
module Json {
  import opened Wrappers

  datatype Json =
    | JNull
    | JBool(b: bool)
    | JNum(n: int)
    | JStr(s: string)
    | JArr(items: seq<Json>)
    | JObj(fields: map<string, Json>)

  /** `v.key`: a property of an object; arrays and primitives have none of the names
      looked up here. */
  function Get(v: Json, key: string): (r: Option<Json>)
    ensures r.Some? <==> v.JObj? && key in v.fields
  {
    if v.JObj? && key in v.fields then Some(v.fields[key]) else None
  }

  /** `typeof v === 'object' && v !== null`: objects and arrays. */
  predicate IsObject(v: Json) { v.JObj? || v.JArr? }

  /** JavaScript truthiness: null, false, 0 and "" are falsy, everything else truthy. */
  predicate Truthy(v: Json) {
    match v
    case JNull => false
    case JBool(b) => b
    case JNum(n) => n != 0
    case JStr(s) => s != ""
    case _ => true
  }

  /** Whether an optional value is `undefined` or `null`. */
  predicate Nullish(v: Option<Json>) { v.None? || v.value == JNull }

  /** `a ?? b`. */
  function Coalesce(a: Option<Json>, b: Option<Json>): (r: Option<Json>)
    ensures !Nullish(a) ==> r == a
    ensures Nullish(a) ==> r == b
  {
    if Nullish(a) then b else a
  }
}
