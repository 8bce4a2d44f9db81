/** Decoded JSON values, as Python's `json` module hands them to the code, and
    the few Python operations the code applies to them (`in`, `[key]`, `[0]`,
    `.get`, `str`). Where Python raises, these give the exception kind. */
module JsonValue {
  import opened Wrappers
  import opened Text

  /** A JSON value. Numbers are integers; objects are maps from keys to values. */
  datatype Json =
    | JNull
    | JBool(b: bool)
    | JNum(n: int)
    | JStr(s: string)
    | JArr(items: seq<Json>)
    | JObj(fields: map<string, Json>)

  /** The Python exceptions that evaluating the modelled expressions can raise. */
  datatype PyError =
    | TypeError
    | KeyError
    | IndexError
    | AttributeError
    | UnboundLocalError

  /** `key in v`: a key of a dict, an element of a list, a substring of a str;
      anything else is not iterable. */
  function PyIn(key: string, v: Json): (r: Result<bool, PyError>)
    ensures r.Failure? <==> v.JNull? || v.JBool? || v.JNum?
    ensures v.JObj? ==> r == Success(key in v.fields)
  {
    match v
    case JObj(fields) => Success(key in fields)
    case JArr(items) => Success(JStr(key) in items)
    case JStr(s) => Success(Contains(s, key))
    case _ => Failure(TypeError)
  }

  /** `v[key]` with a string key: only a dict holding the key answers. */
  function PyIndex(v: Json, key: string): (r: Result<Json, PyError>)
    ensures r.Success? <==> v.JObj? && key in v.fields
    ensures r.Success? ==> r.value == v.fields[key]
  {
    match v
    case JObj(fields) => if key in fields then Success(fields[key]) else Failure(KeyError)
    case _ => Failure(TypeError)
  }

  /** `v[0]`: the first element of a list, the first character of a str; a
      dict has no integer keys once decoded from JSON. */
  function PyFirst(v: Json): (r: Result<Json, PyError>)
    ensures v.JArr? && v.items != [] ==> r == Success(v.items[0])
    ensures r.Success? ==> (v.JArr? && v.items != []) || (v.JStr? && v.s != [])
  {
    match v
    case JArr(items) => if items != [] then Success(items[0]) else Failure(IndexError)
    case JStr(s) => if s != [] then Success(JStr([s[0]])) else Failure(IndexError)
    case JObj(_) => Failure(KeyError)
    case _ => Failure(TypeError)
  }

  /** `v.get(key, default)`: only a dict has `get`. */
  function PyGet(v: Json, key: string, default: Json): (r: Result<Json, PyError>)
    ensures r.Success? <==> v.JObj?
    ensures v.JObj? && key !in v.fields ==> r == Success(default)
  {
    match v
    case JObj(fields) => Success(if key in fields then fields[key] else default)
    case _ => Failure(AttributeError)
  }

  /** `str(v)` (and so `f"{v}"`) for the scalar values; lists and objects get a
      fixed rendering rather than Python's repr. */
  function PyStr(v: Json): string {
    match v
    case JNull => "None"
    case JBool(b) => if b then "True" else "False"
    case JNum(n) => IntToDecimal(n)
    case JStr(s) => s
    case JArr(_) => "[...]"
    case JObj(_) => "{...}"
  }

  /** `d.get(key, default)` on a Python dict whose values are JSON values. */
  function GetOr(d: map<string, Json>, key: string, default: Json): Json {
    if key in d then d[key] else default
  }
}
