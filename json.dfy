/**
 * JSON values as `encoding/json` hands them to a Go program that decodes into
 * `interface{}`: nil, bool, float64, string, []interface{} and
 * map[string]interface{}.
 */
module Json {
  /** A decoded JSON value. `JNum` is an opaque stand-in for the decoded
      `float64`: the handler never inspects a number, and the text it carries
      identifies the decoded value, not the request's spelling of it. */
  datatype Json =
    | JNull
    | JBool(b: bool)
    | JNum(literal: string)
    | JStr(s: string)
    | JArr(elems: seq<Json>)
    | JObj(fields: map<string, Json>)
}
