/** JSON values as the standard `json` module produces them, and `dict.get`. */
module Json {
  import opened Wrappers

  /** A JSON value; numbers are kept as reals (Python int and float compare alike). */
  datatype Json =
    | JNull
    | JBool(b: bool)
    | JNum(n: real)
    | JStr(s: string)
    | JArr(items: seq<Json>)
    | JObj(fields: map<string, Json>)

  /** A JSON object, as `dict` with string keys. */
  type Object = map<string, Json>

  /** `obj.get(key, default)`. */
  function GetOr(obj: Object, key: string, default: Json): (v: Json)
    ensures key in obj ==> v == obj[key]
    ensures key !in obj ==> v == default
  {
    if key in obj then obj[key] else default
  }

  /** `obj.get(key, None)`: the value under `key`, or null when it is absent. */
  function Get(obj: Object, key: string): (v: Json)
    ensures v == (if key in obj then obj[key] else JNull)
  {
    GetOr(obj, key, JNull)
  }

  /** A number read as a ranking key; anything else stands for a value Python cannot order. */
  function NumKey(j: Json): (k: Option<real>)
    ensures k.Some? <==> j.JNum?
    ensures j.JNum? ==> k.value == j.n
  {
    if j.JNum? then Some(j.n) else None
  }

  /**
   * `j[key]` with a string key: an object's field; `KeyError` when the object
   * lacks it, `TypeError` when `j` is not an object (a list, a string, a
   * number, a boolean or `None`).
   */
  function Subscript(j: Json, key: string): (r: Result<Json>)
    ensures r.Ok? <==> j.JObj? && key in j.fields
    ensures r.Ok? ==> r.value == j.fields[key]
    ensures r.Err? ==> r.error == (if j.JObj? then KeyError else TypeError)
  {
    match j
    case JObj(fields) => if key in fields then Ok(fields[key]) else Err(KeyError)
    case _ => Err(TypeError)
  }

  /** Whether `j` can be a dict key: lists and dicts are unhashable. */
  predicate Hashable(j: Json) {
    !j.JArr? && !j.JObj?
  }

  /**
   * `j` as the left operand of `/`: a number, or a boolean as 0 or 1 (Python's
   * `bool` is an `int`); anything else raises `TypeError`.
   */
  function Quotient(j: Json): (r: Result<real>)
    ensures r.Ok? <==> j.JNum? || j.JBool?
    ensures j.JNum? ==> r == Ok(j.n)
    ensures j.JBool? ==> r == Ok(if j.b then 1.0 else 0.0)
    ensures r.Err? ==> r.error == TypeError
  {
    match j
    case JNum(n) => Ok(n)
    case JBool(b) => Ok(if b then 1.0 else 0.0)
    case _ => Err(TypeError)
  }
}
