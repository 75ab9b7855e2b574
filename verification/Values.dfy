/** The JSON-like values that application configuration and default trees are made of. */
module Values {

  datatype Option<+T> = None | Some(value: T)

  datatype Result<+T, +E> = Ok(value: T) | Err(error: E)

  datatype Value =
    | Null
    | Bool(b: bool)
    | Num(n: int)
    | Str(s: string)
    | List(items: seq<Value>)
    | Map(entries: map<string, Value>)
  {
    /** Python truthiness. */
    predicate Truthy() {
      match this
      case Null => false
      case Bool(b) => b
      case Num(n) => n != 0
      case Str(s) => s != ""
      case List(xs) => xs != []
      case Map(m) => m != map[]
    }
  }

  /** Python `dict.get`: a missing key reads as null. */
  function Get(m: map<string, Value>, k: string): Value {
    if k in m then m[k] else Null
  }
}
