/** JSON values, as the backend's `json.loads` and the clients'
    `JSON.parse` return them. */
module JsonValue {

  /** A JSON value. An object keeps one value per key (the last one, for both
      Python's dict and JavaScript objects); numbers are split into the
      integral ones and the rest. */
  datatype Json =
    | JNull
    | JBool(b: bool)
    | JInt(i: int)
    | JFloat(r: real)
    | JStr(s: string)
    | JArray(items: seq<Json>)
    | JObject(fields: map<string, Json>)
}
