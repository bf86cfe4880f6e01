/** The values argparse stores in the `user`/`cli` dictionaries the scripts
    pass around (`vars(args)`), and the dictionary operations they use. */
module Cli {
  import opened Results

  /** A Python value held in a `user` dictionary or a marker dictionary.
      `Null` is Python's `None`. */
  datatype Value =
    | Null
    | Bool(b: bool)
    | Int(i: int)
    | Real(r: real)
    | Str(s: string)
    | Strs(items: seq<string>)
    | Ints(ints: seq<int>)
    | Dict(entries: map<string, Value>)

  /** `user.get(key)`. */
  function Get(user: map<string, Value>, key: string): Value {
    if key in user then user[key] else Null
  }

  /** `user.get(key, default)`: the default only when the key is absent. */
  function GetOr(user: map<string, Value>, key: string, default: Value): Value {
    if key in user then user[key] else default
  }

  /** Python truthiness: `None`, `False`, zero and empty containers are false. */
  predicate Truthy(v: Value) {
    match v
    case Null => false
    case Bool(b) => b
    case Int(i) => i != 0
    case Real(r) => r != 0.0
    case Str(s) => |s| > 0
    case Strs(items) => |items| > 0
    case Ints(ints) => |ints| > 0
    case Dict(entries) => |entries| > 0
  }

  /** A value that an argparse option with `nargs` and no `type` produces:
      `None` or a list of strings. Anything else makes `len()` or indexing
      fail in the callers, reported as `TypeError`. */
  function AsTokens(v: Value): (r: Result<Option<seq<string>>>)
    ensures r.Ok? <==> v.Null? || v.Strs?
  {
    match v
    case Null => Ok(None)
    case Strs(items) => Ok(Some(items))
    case _ => Err(TypeError)
  }
}
