/** JSON values as org.json and Gson see them, and the text form of JSON as a pair of functions. */
module JsonValues {
  import opened Wrappers

  /** A JSON value. Numbers are integers only (floating point is not part of this model). */
  datatype Json =
    | JNull
    | JBool(b: bool)
    | JNumber(n: int)
    | JString(s: string)
    | JArray(elems: seq<Json>)
    | JObject(members: map<string, Json>)

  /**
   * The JSON text library (org.json's parser and toString). Its workings are outside the model:
   * `parse` is partial (None where the library throws a JSONException), `serialize` is total.
   */
  datatype JsonCodec = JsonCodec(parse: string -> Option<Json>, serialize: Json -> string)

  /** What the code relies on when it re-reads text it wrote: parsing undoes serializing. */
  ghost predicate RoundTrips(codec: JsonCodec) {
    forall j :: codec.parse(codec.serialize(j)) == Some(j)
  }
}
