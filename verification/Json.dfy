/** JSON values, as the wire carries them once parsed. */
module Json {
  import opened Options

  /** A number is an exact integer or anything else; only the former reads back as one. */
  datatype Value =
    | Null
    | Bool(b: bool)
    | Int(i: int)
    | Real(r: real)
    | Str(s: string)
    | Arr(items: seq<Value>)
    | Obj(fields: map<string, Value>)

  /** A field of an object; nothing on any other value. */
  function Get(v: Value, key: string): Option<Value> {
    if v.Obj? && key in v.fields then Some(v.fields[key]) else None
  }

  const U64_LIMIT: int := 0x1_0000_0000_0000_0000

  function AsU64(v: Value): Option<nat> {
    if v.Int? && 0 <= v.i < U64_LIMIT then Some(v.i) else None
  }
}
