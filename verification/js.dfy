/** JavaScript values as they appear in stored configuration and settings. */
module Js {

  /**
   * A JSON-compatible JavaScript value. A record field that is `undefined`
   * is modelled as an absent key.
   */
  datatype Value =
    | Null
    | Bool(b: bool)
    | Number(n: real)
    | Str(s: string)
    | Array(items: seq<Value>)
    | Object(fields: map<string, Value>)

  /** The record `{}`. */
  const EmptyObject: Value := Object(map[])
}
