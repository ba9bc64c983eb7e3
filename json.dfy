/** The part of `serde_json::Value` the decoder uses: the six JSON shapes and
    the `get` / `as_str` accessors. Parsing itself is not modelled; callers
    receive the parser as a function. */
module JsonValue {
  import opened Wrappers

  datatype Json =
    | Null
    | Bool(b: bool)
    | Number(literal: string)
    | Str(s: string)
    | Array(items: seq<Json>)
    | Object(fields: map<string, Json>)

  /** A `serde_json::Error`, kept as its message. */
  datatype JsonError = JsonError(message: string)

  /** `Value::get(key)`: the member of an object, nothing for anything else. */
  function Get(v: Json, key: string): (r: Option<Json>)
    ensures r.Some? <==> v.Object? && key in v.fields
    ensures r.Some? ==> r.value == v.fields[key]
  {
    match v
    case Object(fields) => if key in fields then Some(fields[key]) else None
    case _ => None
  }

  /** `Value::get(index)`: the element of an array, nothing past its end or
      for anything else. */
  function At(v: Json, index: nat): (r: Option<Json>)
    ensures r.Some? <==> v.Array? && index < |v.items|
    ensures r.Some? ==> r.value == v.items[index]
  {
    match v
    case Array(items) => if index < |items| then Some(items[index]) else None
    case _ => None
  }

  /** `Value::as_str`: the text of a string, nothing for anything else. */
  function AsStr(v: Json): (r: Option<string>)
    ensures r.Some? <==> v.Str?
    ensures r.Some? ==> r.value == v.s
  {
    match v
    case Str(s) => Some(s)
    case _ => None
  }
}
