/** The JSON values the services exchange: Jackson trees read by the event
    consumer, envelopes built by the publisher, and response bodies. */
module Json {
  import opened Wrappers
  import opened Text

  /** A point in time, as a count of milliseconds on the service's clock. */
  type Instant = int

  datatype Json =
    | JNull
    | JBool(b: bool)
    | JInt(n: int)          // an integral number, of any magnitude
    | JFloat(repr: string)  // a number with a fraction or exponent, as written
    | JText(s: string)
    | JArray(items: seq<Json>)
    | JObject(fields: map<string, Json>)
    | JTime(at: Instant)    // a java.time.Instant placed in a body built in code

  /** `JsonNode.has(field)`: an object with that field, even a null one. */
  predicate Has(root: Json, field: string)
  {
    root.JObject? && field in root.fields
  }

  /** `JsonNode.hasNonNull(field)`. */
  predicate HasNonNull(root: Json, field: string)
  {
    Has(root, field) && root.fields[field] != JNull
  }

  /** `JsonNode.asText()` of a value node; containers give the empty text. */
  function AsText(node: Json): string
  {
    match node
    case JNull => "null"
    case JBool(b) => if b then "true" else "false"
    case JInt(n) => IntToString(n)
    case JFloat(repr) => repr
    case JText(s) => s
    case JArray(_) => ""
    case JObject(_) => ""
    case JTime(at) => IntToString(at)
  }

  /** `JsonNode.isInt()`: an integral number that Jackson holds in an int. */
  predicate IsIntNode(node: Json)
  {
    node.JInt? && IsInt32(node.n)
  }
}
