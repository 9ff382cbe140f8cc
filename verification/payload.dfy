/**
 * Reading records and provider payloads the way the Python code does:
 * `payload[key]`, chains of `.get(key, {})`, values used as strings,
 * `str()` of an identifier and `fromisoformat` of a truthy value.
 * Where Python would raise `AttributeError` or `TypeError` on a value of
 * the wrong shape, the reader fails with `WrongType`.
 */
module Payload {
  import opened Wrappers
  import opened Text
  import opened Json
  import opened DateTime

  /** The ways reading a record can fail: `ValueError("Unknown severity")`,
      a `KeyError` on a mandatory key, a date-time `fromisoformat` rejects,
      and a value of the wrong JSON type where a string was expected. */
  datatype Error =
    | UnknownSeverity(raw: string)
    | MissingField(key: string)
    | MalformedTimestamp(raw: string)
    | WrongType(key: string)

  /** `d.get(key, {})` where the result is then used as a dictionary. */
  function GetObj(d: Object, key: string): (r: Result<Object, Error>)
    ensures r.Ok? <==> key !in d || d[key].Obj?
    ensures r.Ok? ==> r.value == (if key in d then d[key].fields else map[])
    ensures r.Err? ==> r.error == WrongType(key)
  {
    if key !in d then Ok(map[])
    else if d[key].Obj? then Ok(d[key].fields)
    else Err(WrongType(key))
  }

  /** A value that is then used as a string. */
  function AsString(v: Json, key: string): (r: Result<string, Error>)
    ensures r.Ok? <==> v.Str?
    ensures r.Ok? ==> v == Str(r.value)
    ensures r.Err? ==> r.error == WrongType(key)
  {
    if v.Str? then Ok(v.s) else Err(WrongType(key))
  }

  /** The JSON value read into an `Optional[str]` field is `o`. */
  predicate Holds(v: Json, o: Option<string>) {
    if v == Null then o == None else o.Some? && v == Str(o.value)
  }

  /** The JSON value of an optional string: `null` or the string. */
  function OptStr(o: Option<string>): (v: Json)
    ensures Holds(v, o)
  {
    if o.Some? then Str(o.value) else Null
  }

  /** A value an `Optional[str]` field can take: `null` or a string. */
  predicate OptionalText(v: Json) {
    v.Null? || v.Str?
  }

  /** A value stored in an `Optional[str]` field. */
  function AsOptionalString(v: Json, key: string): (r: Result<Option<string>, Error>)
    ensures r.Ok? <==> OptionalText(v)
    ensures r.Ok? ==> Holds(v, r.value)
    ensures r.Err? ==> r.error == WrongType(key)
  {
    match v
    case Null => Ok(None)
    case Str(s) => Ok(Some(s))
    case _ => Err(WrongType(key))
  }

  /** Python's `str(v)` of a scalar: strings as they are, integers in
      decimal, `None`, `True` and `False` by name. */
  function PyStr(v: Json, key: string): (r: Result<string, Error>)
    ensures r.Ok? <==> !v.Arr? && !v.Obj?
    ensures v.Str? ==> r == Ok(v.s)
    ensures v.Null? ==> r == Ok("None")
    ensures r.Err? ==> r.error == WrongType(key)
  {
    match v
    case Null => Ok("None")
    case Bool(b) => Ok(if b then "True" else "False")
    case Num(n) => Ok(IntToDecimal(n))
    case Str(s) => Ok(s)
    case _ => Err(WrongType(key))
  }

  /** `payload[key]` where the value must be a string. */
  function Required(payload: Object, key: string): (r: Result<string, Error>)
    ensures r.Ok? <==> key in payload && payload[key].Str?
    ensures r.Ok? ==> payload[key] == Str(r.value)
    ensures r.Err? ==> r.error == (if key in payload then WrongType(key) else MissingField(key))
  {
    if key !in payload then Err(MissingField(key))
    else if payload[key].Str? then Ok(payload[key].s)
    else Err(WrongType(key))
  }

  /** A value `datetime.fromisoformat(v) if v else None` reads: a falsy
      one, or a string the parser accepts. */
  predicate TimestampText(v: Json) {
    !Truthy(v) || (v.Str? && Parse(v.s).Some?)
  }

  /** `datetime.fromisoformat(v) if v else None`. */
  function OptionalTimestamp(v: Json, key: string): (r: Result<Option<Timestamp>, Error>)
    ensures r.Ok? <==> TimestampText(v)
    ensures !Truthy(v) ==> r == Ok(None)
    ensures r.Ok? ==> (r.value.Some? <==> Truthy(v))
    ensures r.Ok? && r.value.Some? ==> v.Str? && Parse(v.s) == r.value
    ensures v.Str? && Truthy(v) && Parse(v.s).None? ==> r == Err(MalformedTimestamp(v.s))
    ensures Truthy(v) && !v.Str? ==> r == Err(WrongType(key))
  {
    if !Truthy(v) then Ok(None)
    else if v.Str? then
      match Parse(v.s)
      case None => Err(MalformedTimestamp(v.s))
      case Some(t) => Ok(Some(t))
    else Err(WrongType(key))
  }
}
