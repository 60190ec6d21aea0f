/** Shared value types: optional and fallible results, and the few JSON values
    the upstream replies carry. */
module Common {

  datatype Option<+T> = None | Some(value: T) {
    function GetOr(default: T): T {
      match this
      case Some(v) => v
      case None => default
    }
  }

  datatype Result<+T, +E> = Ok(value: T) | Err(error: E)

  /** What a call into code outside the model gave: it raised, or it
      returned a value. */
  datatype Answer<+T> = Threw | Gave(value: T)

  /** Python truthiness of a value that is either `None` or a string:
      `None` and the empty string are false. */
  predicate Truthy(s: Option<string>) {
    s.Some? && s.value != ""
  }

  /** A decoded JSON value as Python's `json` module hands it back. */
  datatype Json =
    | JNull
    | JBool(b: bool)
    | JInt(i: int)
    | JFloat(r: real)
    | JStr(s: string)
    | JArray(items: seq<Json>)
    | JObject(fields: map<string, Json>)

  /** Python's `bool(v)`. */
  predicate JsonTruthy(v: Json) {
    match v
    case JNull => false
    case JBool(b) => b
    case JInt(i) => i != 0
    case JFloat(r) => r != 0.0
    case JStr(s) => s != ""
    case JArray(items) => items != []
    case JObject(fields) => fields != map[]
  }

  /** Python's `v == 0`: true for the integer 0, for `False` (a bool is an int
      in Python) and for the float 0.0. */
  predicate JsonEqualsZero(v: Json) {
    v == JInt(0) || v == JBool(false) || v == JFloat(0.0)
  }

  /** A JSON object's `get(key)`: a missing key reads as `None`. */
  function Field(obj: map<string, Json>, key: string): (v: Json)
    ensures key !in obj ==> v == JNull
  {
    if key in obj then obj[key] else JNull
  }
}
