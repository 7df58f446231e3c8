/** Decoded JSON documents, as `JSON.parse` produces them, and JavaScript's
    truthiness on them.  The decoder itself is not modelled: every operation that
    decodes a body takes it as a parameter of type `Decoder`. */
module Json {
  import opened Wrappers

  datatype Json =
    | JNull
    | JBool(b: bool)
    | JNumber(n: real)
    | JString(s: string)
    | JArray(items: seq<Json>)
    | JObject(fields: map<string, Json>)

  /** A JSON decoder: `None` stands for `JSON.parse` throwing a SyntaxError. */
  type Decoder = string -> Option<Json>

  /** JavaScript's ToBoolean restricted to the values a JSON document can hold:
      `null`, `false`, `0` and the empty string are falsy, every array and
      every object (even an empty one) is truthy. */
  predicate Truthy(v: Json) {
    match v
    case JNull => false
    case JBool(b) => b
    case JNumber(n) => n != 0.0
    case JString(s) => s != ""
    case JArray(_) => true
    case JObject(_) => true
  }
}
