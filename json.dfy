/** The values a JSON request body can carry, as far as the server's
    normaliser and validator can tell them apart, with JavaScript truthiness. */
module Json {

  /** A JSON value seen from JavaScript. `Undefined` is a missing key.
      Numbers are kept as integers: only whether they are zero matters to the
      code that reads them. */
  datatype Value =
    | Undefined
    | Null
    | Bool(b: bool)
    | Num(n: int)
    | Str(s: string)
    | Arr(items: seq<Value>)
    | Obj

  /** JavaScript truthiness: `undefined`, `null`, `false`, `0` and `""` are
      falsy, every other value (including empty arrays and objects) is truthy. */
  predicate Truthy(v: Value) {
    match v
    case Undefined => false
    case Null => false
    case Bool(b) => b
    case Num(n) => n != 0
    case Str(s) => s != []
    case Arr(_) => true
    case Obj => true
  }
}
