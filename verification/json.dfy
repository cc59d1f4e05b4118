/** JSON values as the router handles them (decoded by Python's `json`),
    with Python's truthiness and `dict.get`. Numbers are integers here. */
module Json {

  datatype Json =
    | Null
    | Bool(b: bool)
    | Num(n: int)
    | Str(s: string)
    | Arr(items: seq<Json>)
    | Obj(fields: map<string, Json>)

  /** Python's `bool(v)`: `None`, `False`, `0`, and empty strings, lists and
      dicts are false; everything else is true. */
  predicate Truthy(j: Json) {
    match j
    case Null => false
    case Bool(b) => b
    case Num(n) => n != 0
    case Str(s) => |s| > 0
    case Arr(a) => |a| > 0
    case Obj(m) => |m| > 0
  }

  /** `d.get(k)`: the value under `k`, or `None` when the key is absent. */
  function Get(d: map<string, Json>, k: string): Json {
    if k in d then d[k] else Null
  }

  /** Python's `a or b`. */
  function Or(a: Json, b: Json): Json {
    if Truthy(a) then a else b
  }
}
