/** JSON values as the program sees them after decoding; text encoding is not modelled. */
module JsonValue {
  import opened Wrappers

  datatype Json =
    | Null
    | Bool(flag: bool)
    | Num(number: int)
    | Str(text: string)
    | Array(items: seq<Json>)
    | Object(fields: map<string, Json>)

  /** Property lookup: absent on anything that is not an object. */
  function Field(value: Json, key: string): Option<Json> {
    if value.Object? && key in value.fields then Some(value.fields[key]) else None
  }
}
