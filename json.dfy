/** A parsed JSON status object, as the streaming client hands it over. */
module Json {
  import opened Wrappers

  /** One parsed JSON value. Floating-point numbers are not modelled. */
  datatype Value =
    | Null
    | Bool(b: bool)
    | Int(i: int)
    | Str(s: string)
    | Arr(items: seq<Value>)
    | Obj(fields: Object)

  type Object = map<string, Value>

  /** Python's `d.get(key)` on a parsed object: an absent key and a JSON
      `null` both read as `None`. */
  function Get(m: Object, key: string): (r: Option<Value>)
    ensures r.None? <==> key !in m || m[key] == Null
    ensures r.Some? ==> r.value == m[key]
  {
    if key in m && m[key] != Null then Some(m[key]) else None
  }
}
