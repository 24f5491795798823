/**
  The JavaScript values a request body can carry, as far as the link handlers
  look at them: `req.body.url` and `req.body.code` may be missing, `null`, a
  boolean, a number, a string or an object. Only their truthiness and whether
  they are strings matter to the handlers.
*/
module JsValues {

  /** A nullable value, such as a timestamp column that may hold `null`. */
  datatype Option<T> = None | Some(value: T)

  datatype Value =
    | Undefined
    | Null
    | Bool(b: bool)
    | Num(n: int)
    | Str(s: string)
    | Obj

  /** JavaScript truthiness: `!v` is false exactly for these values. */
  predicate Truthy(v: Value) {
    match v
    case Undefined => false
    case Null => false
    case Bool(b) => b
    case Num(n) => n != 0
    case Str(s) => s != ""
    case Obj => true
  }
}
