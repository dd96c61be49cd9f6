/** JSON values as they travel through the worker, the hooks and the backend handlers.
    Numbers are integers; the floating-point part of JSON numbers is not modelled. */
module Json {

  import opened Wrappers

  datatype Json =
    | JNull
    | JBool(b: bool)
    | JNumber(n: int)
    | JString(s: string)
    | JArray(items: seq<Json>)
    | JObject(fields: map<string, Json>)

  /** JavaScript truthiness: `null`, `false`, `0` and `""` are falsy, every array and object is truthy. */
  predicate JsTruthy(v: Json) {
    match v
    case JNull => false
    case JBool(b) => b
    case JNumber(n) => n != 0
    case JString(s) => s != ""
    case JArray(_) => true
    case JObject(_) => true
  }

  /** Python truthiness of the value `json.loads` produces: empty lists and dicts are falsy too. */
  predicate PyTruthy(v: Json) {
    match v
    case JNull => false
    case JBool(b) => b
    case JNumber(n) => n != 0
    case JString(s) => s != ""
    case JArray(items) => |items| > 0
    case JObject(fields) => |fields| > 0
  }

  /** Python's `d.get(key, default)` on a dict keyed by strings: a parsed body or a header map. */
  function GetOr<V>(fields: map<string, V>, key: string, default: V): V {
    if key in fields then fields[key] else default
  }

  /** JavaScript's optional member access `v?.key`: `None` stands for `undefined`. */
  function Member(v: Json, key: string): Option<Json> {
    match v
    case JObject(fields) => if key in fields then Some(fields[key]) else None
    case _ => None
  }
}
