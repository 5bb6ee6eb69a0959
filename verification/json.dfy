/** Parsed JSON values as the wallpaper tools see them after `json.load`,
    together with the few Python operations the tools apply to them:
    truthiness, `dict.get`, and `!=` against a boolean. */
module Json {

  /** A parsed JSON document. Objects are maps because the tools only ever
      look fields up by name; numbers are reals (Python ints and floats
      compare equal when their values agree). */
  datatype Value =
    | Null
    | Bool(b: bool)
    | Number(n: real)
    | Str(s: string)
    | Array(items: seq<Value>)
    | Object(fields: map<string, Value>)

  datatype Option<+T> = None | Some(value: T)

  /** Python's truth value of a parsed JSON value (`bool(v)`). */
  predicate Truthy(v: Value) {
    match v
    case Null => false
    case Bool(b) => b
    case Number(n) => n != 0.0
    case Str(s) => |s| > 0
    case Array(items) => |items| > 0
    case Object(fields) => |fields| > 0
  }

  /** `obj.get(key)` on a dict: the value, or Python's None (JSON null)
      when the key is absent. */
  function Get(fields: map<string, Value>, key: string): (r: Value)
    ensures key in fields ==> r == fields[key]
    ensures key !in fields ==> r == Null
  {
    if key in fields then fields[key] else Null
  }

  /** `obj.get(key, default)`. */
  function GetOr(fields: map<string, Value>, key: string, default: Value): (r: Value)
    ensures key in fields ==> r == fields[key]
    ensures key !in fields ==> r == default
  {
    if key in fields then fields[key] else default
  }

  /** Python's `v == b` for a parsed JSON value `v` and a bool `b`: besides a
      boolean with the same value, the numbers 1 and 0 (int or float) equal
      True and False. */
  predicate PyEqBool(v: Value, b: bool) {
    match v
    case Bool(x) => x == b
    case Number(n) => n == (if b then 1.0 else 0.0)
    case _ => false
  }
}
