/** Decoded JSON, and the two library functions that go to and from its text. */
module JsonValue {
  import opened Wrappers

  /** A decoded JSON value; Go visits the fields of an object in no particular order. */
  datatype Json =
    | JNull
    | JBool(b: bool)
    | JNum(n: real)
    | JStr(s: string)
    | JArr(items: seq<Json>)
    | JObj(fields: map<string, Json>)

  /** json.Unmarshal, None for its error, and json.MarshalIndent. */
  datatype Codec = Codec(decode: string -> Option<Json>, encode: Json -> string)

  /** What is encoded is decoded to the same value. */
  ghost predicate RoundTrips(c: Codec) {
    forall v :: c.decode(c.encode(v)) == Some(v)
  }
}
