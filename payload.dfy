/** Request bodies as the HTTP layer hands them to the handlers: a JSON object
    decoded into a dictionary from field names to JSON values. */
module Payload {

  /** A decoded JSON value. Numbers are integers only (see README). */
  datatype Value =
    | Null
    | Bool(b: bool)
    | Num(n: int)
    | Str(s: string)
    | Array(items: seq<Value>)
    | Object(fields: map<string, Value>)

  /** A request body: the decoded top-level JSON object. */
  type Data = map<string, Value>

  /** The comparison `value == ''`: only the empty JSON string equals the
      empty string; `0`, `false`, `null` and `[]` do not. */
  predicate IsEmptyString(v: Value) {
    v == Str("")
  }
}
