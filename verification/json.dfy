/**
 * Loosely-typed provider payloads: the values `json.loads` and the vendor
 * SDKs hand to the adapters, with Python's truthiness and `dict.get`.
 */
module Json {

  /** A JSON value. Numbers are integers; objects are dictionaries keyed
      by string. */
  datatype Json =
    | Null
    | Bool(b: bool)
    | Num(n: int)
    | Str(s: string)
    | Arr(items: seq<Json>)
    | Obj(fields: map<string, Json>)

  type Object = map<string, Json>

  /** Python's `bool(v)`: `None`, `False`, `0`, `""`, `[]` and `{}` are
      false, everything else is true. */
  predicate Truthy(v: Json) {
    match v
    case Null => false
    case Bool(b) => b
    case Num(n) => n != 0
    case Str(s) => s != []
    case Arr(items) => items != []
    case Obj(fields) => fields != map[]
  }

  /** `d.get(key, default)`. */
  function Get(d: Object, key: string, default: Json): (v: Json)
    ensures key in d ==> v == d[key]
    ensures key !in d ==> v == default
  {
    if key in d then d[key] else default
  }

  /** `a or b` on two already-evaluated values. */
  function Or(a: Json, b: Json): (v: Json)
    ensures Truthy(a) ==> v == a
    ensures !Truthy(a) ==> v == b
  {
    if Truthy(a) then a else b
  }

  /** The value at the end of a chain of keys, descending through objects;
      `Null` when a key is missing or a step is not an object. */
  function At(d: Object, path: seq<string>): Json
    decreases |path|
  {
    if path == [] then Obj(d)
    else if path[0] !in d then Null
    else if |path| == 1 then d[path[0]]
    else if d[path[0]].Obj? then At(d[path[0]].fields, path[1..])
    else Null
  }

  /** Like `At`, but `default` when a key along the way is missing: a chain
      of `.get(key, {})` ending in `.get(last, default)`. */
  function AtOr(d: Object, path: seq<string>, default: Json): Json
    decreases |path|
  {
    if path == [] then Obj(d)
    else if path[0] !in d then default
    else if |path| == 1 then d[path[0]]
    else if d[path[0]].Obj? then AtOr(d[path[0]].fields, path[1..], default)
    else Null
  }
}
