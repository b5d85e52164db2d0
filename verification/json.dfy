/** Decoded JSON values, as produced by `JSON.parse` and by axios for a JSON
    response body. Numbers are finite reals: JSON has no NaN or infinity. */
module Json {
  import opened Wrappers

  datatype Json =
    | JNull
    | JBool(b: bool)
    | JNum(n: real)
    | JStr(s: string)
    | JArr(items: seq<Json>)
    | JObj(fields: map<string, Json>)

  /** `value[key]` on a decoded JSON value: a field of an object, and `undefined`
      (None) for a missing key or for a value that is not an object. */
  function Member(value: Json, key: string): Option<Json> {
    if value.JObj? && key in value.fields then Some(value.fields[key]) else None
  }

  /** The runtime type name zod reports for a value; a missing value is
      `undefined`. */
  function TypeName(value: Option<Json>): string {
    match value
    case None => "undefined"
    case Some(JNull) => "null"
    case Some(JBool(_)) => "boolean"
    case Some(JNum(_)) => "number"
    case Some(JStr(_)) => "string"
    case Some(JArr(_)) => "array"
    case Some(JObj(_)) => "object"
  }
}
