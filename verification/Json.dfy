/** JSON values as the adapters, the audit log and the release gate see them after parsing. */
module Json {

  datatype Value =
    | Null
    | Bool(bool)
    | Number(value: real)
    | String(text: string)
    | Array(items: seq<Value>)
    | Object(fields: map<string, Value>)
}
