/**
 * The Python values that `json.loads` can produce, with the parts of Python's
 * object protocol that the grammar pipeline relies on: truthiness, `dict.get`
 * and the wording of the AttributeError raised when a method is missing.
 */
module JsonValues {
  /** A decoded JSON value: None, bool, int, float, str, list or dict. */
  datatype Json =
    | JNull
    | JBool(b: bool)
    | JInt(i: int)
    | JFloat(f: real)
    | JString(s: string)
    | JArray(items: seq<Json>)
    | JObject(fields: map<string, Json>)

  /** What a call of `json.loads` does: return a value or raise JSONDecodeError with a reason. */
  datatype Decoded = Parsed(value: Json) | Malformed(reason: string)

  /**
   * The foreign JSON parser, `json.loads` on the bracketed span. The result of
   * `Response.json()` is not drawn from it: it is carried, already decoded, in
   * the reply's `body`.
   */
  type JsonLoads = string -> Decoded

  /** Python truthiness (`bool(v)`) of a decoded value. */
  predicate Truthy(v: Json) {
    match v
    case JNull => false
    case JBool(b) => b
    case JInt(i) => i != 0
    case JFloat(f) => f != 0.0
    case JString(s) => s != ""
    case JArray(items) => items != []
    case JObject(fields) => fields != map[]
  }

  /** `d.get(key, default)` on a dict. */
  function Get(fields: map<string, Json>, key: string, default: Json): (v: Json)
    ensures key in fields ==> v == fields[key]
    ensures key !in fields ==> v == default
  {
    if key in fields then fields[key] else default
  }

  /** The name `type(v).__name__` gives for a decoded value. */
  function TypeName(v: Json): (name: string)
    ensures name != ""
  {
    match v
    case JNull => "NoneType"
    case JBool(_) => "bool"
    case JInt(_) => "int"
    case JFloat(_) => "float"
    case JString(_) => "str"
    case JArray(_) => "list"
    case JObject(_) => "dict"
  }

  /** The text of the AttributeError raised by `v.attr` when `v` has no such method. */
  function NoAttribute(v: Json, attr: string): string {
    "'" + TypeName(v) + "' object has no attribute '" + attr + "'"
  }
}
