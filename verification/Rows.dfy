/** Rows as decoded JSON objects. */
module Rows {
  datatype Value =
    | Null
    | Boolean(b: bool)
    | Number(n: real)
    | Str(s: string)
    | List(items: seq<Value>)
    | Object(fields: map<string, Value>)

  type Row = map<string, Value>
}
