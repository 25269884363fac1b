/**
 * A decoded JSON document, as the HTTP client hands it back after decoding a
 * response body into associative arrays. Decoding itself belongs to the
 * framework and is not modelled; numbers are kept in their textual form.
 */
module JsonValue {

  datatype Json =
    | JNull
    | JBool(b: bool)
    | JNumber(text: string)
    | JString(s: string)
    | JArray(items: seq<Json>)
    | JObject(members: seq<(string, Json)>)
}
