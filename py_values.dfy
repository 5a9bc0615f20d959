/** The dynamically typed values that flow through the system's dictionaries
    (`Dict[str, Any]` payloads, JSON documents), and Python's truth test on them. */
module PyValues {

  /** A JSON-like Python value: `None`, a bool, an int, a str, a list or a dict
      with string keys. Floats are not modelled. */
  datatype Value =
    | Null
    | Bool(b: bool)
    | Int(i: int)
    | Str(s: string)
    | List(items: seq<Value>)
    | Dict(entries: map<string, Value>)

  /** Python's truth value: `None`, `False`, `0`, `""`, `[]` and `{}` are false. */
  predicate Truthy(v: Value) {
    match v
    case Null => false
    case Bool(b) => b
    case Int(i) => i != 0
    case Str(s) => s != ""
    case List(xs) => xs != []
    case Dict(m) => m != map[]
  }

  /** `d.get(key, default)`. */
  function Get(d: map<string, Value>, key: string, default: Value): (v: Value)
    ensures key in d ==> v == d[key]
    ensures key !in d ==> v == default
  {
    if key in d then d[key] else default
  }

  /** `d.get(key)`: a missing key reads as `None`. */
  function GetOrNull(d: map<string, Value>, key: string): (v: Value)
    ensures v == Get(d, key, Null)
  {
    Get(d, key, Null)
  }

  /** An optional string as the value Python stores: `None` or the string. */
  function OptStr(o: Option<string>): (v: Value)
    ensures Truthy(v) <==> o.Some? && o.value != ""
  {
    match o
    case Some(s) => Str(s)
    case None => Null
  }

  /** An optional dict as the value Python stores: `None` or the dict. */
  function OptDict(o: Option<map<string, Value>>): (v: Value)
    ensures Truthy(v) <==> o.Some? && o.value != map[]
  {
    match o
    case Some(m) => Dict(m)
    case None => Null
  }

  /** `d[key] = v` performed only when `v` is truthy (the `if x: d[k] = x` idiom). */
  function PutIfTruthy(d: map<string, Value>, key: string, v: Value): (r: map<string, Value>)
    ensures key in r <==> key in d || Truthy(v)
    ensures Truthy(v) ==> r[key] == v
    ensures !Truthy(v) ==> r == d
    ensures forall k :: k in d && k != key ==> k in r && r[k] == d[k]
    ensures forall k :: k in r && k != key ==> k in d
  {
    if Truthy(v) then d[key := v] else d
  }

  /** `(d or {})` for an optional dict argument. */
  function OrEmpty(d: Option<map<string, Value>>): (r: map<string, Value>)
    ensures d.Some? ==> r == d.value
    ensures d.None? ==> r == map[]
  {
    match d
    case Some(m) => m
    case None => map[]
  }

  /** `str(v)` for the scalar values; a list or a dict is written as a
      placeholder rather than as Python's `repr`. */
  function Text(v: Value): string {
    match v
    case Null => "None"
    case Bool(b) => if b then "True" else "False"
    case Int(i) => PyStrings.IntToString(i)
    case Str(s) => s
    case List(_) => "[...]"
    case Dict(_) => "{...}"
  }

  import opened Wrappers
  import PyStrings
}
