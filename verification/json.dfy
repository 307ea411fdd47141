/**
 * What the network layer hands to the program: a parsed JSON document (or bytes
 * that are not JSON) plus the transport error, as URLSession's completion
 * handler delivers them.
 */
module Json {
  import opened Common

  /**
   * A JSON value. Numbers written without fraction or exponent are `JInt`;
   * every other number literal is `JReal`. Objects map member names to values.
   */
  datatype Json =
    | JNull
    | JBool(b: bool)
    | JInt(i: int)
    | JReal(r: real)
    | JString(s: string)
    | JArray(elems: seq<Json>)
    | JObject(fields: map<string, Json>)

  /** A response body: either bytes that do not parse as JSON, or a JSON document. */
  datatype Body = NotJson | Parsed(json: Json)

  /** The opaque `Error` a failed transfer reports. */
  datatype NetError = NetError(description: string)

  /** The `(data, response, error)` triple of a data task, without the unused response. */
  datatype Reply = Reply(error: Option<NetError>, data: Option<Body>)

  /** The object member `key` of `j` when `j` is an object that has it. */
  function Member(j: Json, key: string): (r: Option<Json>)
    ensures r.Some? <==> j.JObject? && key in j.fields
    ensures r.Some? ==> r.value == j.fields[key]
  {
    if j.JObject? && key in j.fields then Some(j.fields[key]) else None
  }

  /** The object member `key` of `j` when it is present and a JSON string. */
  function StringMember(j: Json, key: string): (r: Option<string>)
    ensures r.Some? <==> Member(j, key).Some? && Member(j, key).value.JString?
    ensures r.Some? ==> JString(r.value) == j.fields[key]
  {
    match Member(j, key)
    case Some(JString(s)) => Some(s)
    case _ => None
  }
}
