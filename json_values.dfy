/** JSON values as the request handler sees them once decoded into Python
    objects, with the three Python operations the handler applies to them:
    truthiness (`if not x`, `while x`, `x or y`), `d.get(key)` and `d[key]`. */
module JsonValues {

  datatype Json =
    | JNull
    | JBool(b: bool)
    | JNum(n: real)
    | JStr(s: string)
    | JArr(items: seq<Json>)
    | JObj(fields: map<string, Json>)

  /** The result of a Python operation that may raise an exception. */
  datatype Attempt<+T> = Returned(value: T) | Raised

  /** Python truthiness: None, False, zero, "", [] and {} are falsy. */
  predicate Truthy(v: Json) {
    match v
    case JNull => false
    case JBool(b) => b
    case JNum(n) => n != 0.0
    case JStr(s) => s != ""
    case JArr(items) => items != []
    case JObj(fields) => fields != map[]
  }

  /** `v.get(key)`: None when a dict lacks the key; anything but a dict has no
      `get` attribute and raises. */
  function GetKey(v: Json, key: string): (r: Attempt<Json>)
    ensures r.Raised? <==> !v.JObj?
    ensures r.Returned? ==> r.value == Field(v, key)
  {
    if v.JObj? then Returned(if key in v.fields then v.fields[key] else JNull) else Raised
  }

  /** `v[key]` with a string key: only a dict holding the key answers; a
      dict without it raises KeyError and any other value raises TypeError. */
  function Index(v: Json, key: string): (r: Attempt<Json>)
    ensures r.Returned? <==> v.JObj? && key in v.fields
    ensures r.Returned? ==> r.value == v.fields[key]
  {
    if v.JObj? && key in v.fields then Returned(v.fields[key]) else Raised
  }

  /** `v.get(key)` on a value already known to be a dict, or None otherwise. */
  function Field(v: Json, key: string): Json {
    if v.JObj? && key in v.fields then v.fields[key] else JNull
  }
}
