/**
 * The JSON value tree of RFC 8259 as `json.load` hands it to Python: objects become
 * dictionaries (key order is not modelled; a repeated key keeps its last value) and
 * numbers are integers (the issue files hold no fractions).
 */
module Json {

  datatype Value =
    | JNull
    | JBool(b: bool)
    | JInt(i: int)
    | JString(s: string)
    | JArray(items: seq<Value>)
    | JObject(fields: map<string, Value>)

  /** Python's truth value of the loaded value: `None`, `False`, `0` and empty containers are false. */
  predicate Truthy(v: Value) {
    match v
    case JNull => false
    case JBool(b) => b
    case JInt(i) => i != 0
    case JString(s) => s != ""
    case JArray(items) => items != []
    case JObject(fields) => fields != map[]
  }
}
