/** Decoded JSON, as the API client hands it to the script (Python dicts, lists,
    strings, integers, booleans and `None`). */
module Json {

  datatype Value =
    | Null
    | Bool(b: bool)
    | Int(i: int)
    | Str(s: string)
    | List(items: seq<Value>)
    | Obj(fields: map<string, Value>)

  /** A JSON object: one record of an API response. */
  type Record = map<string, Value>

  /** `d.get(key, None)`: an absent key reads as `None`, exactly like a stored null. */
  function Get(d: Record, key: string): Value
  {
    if key in d then d[key] else Null
  }

  /** Python's `v == 1`; `True == 1` holds in Python because `bool` is a subtype of `int`. */
  predicate IsOne(v: Value)
  {
    v == Int(1) || v == Bool(true)
  }
}
