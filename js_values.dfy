/**
 * The JavaScript values the two middlewares handle: the JSON-like values that sit in a
 * request slot, and the values that can be thrown at the error handler.
 */
module JsValues {

  datatype Option<+T> = None | Some(value: T)

  datatype Result<+R, +E> = Success(value: R) | Failure(error: E)

  /** A JSON-like JavaScript value, as parsed request bodies, params and queries hold. */
  datatype Value =
    | Undefined
    | Null
    | Bool(b: bool)
    | Num(n: int)
    | Str(s: string)
    | Arr(items: seq<Value>)
    | Obj(fields: map<string, Value>)

  /** JavaScript truthiness, the value of `!!v`. */
  predicate Truthy(v: Value)
  {
    match v
    case Undefined => false
    case Null => false
    case Bool(b) => b
    case Num(n) => n != 0
    case Str(s) => s != ""
    case Arr(_) => true
    case Obj(_) => true
  }

  /** One step of a validation issue's path: an object key or an array index. */
  datatype PathSeg = Key(name: string) | Index(index: nat)

  /** A validation issue: where in the input it is, and what is wrong there. */
  datatype Issue = Issue(path: seq<PathSeg>, message: string)

  /** A value thrown by a schema or by a route handler. */
  datatype Thrown =
    | ValidationErr(issues: seq<Issue>)  // a schema validation error (a subclass of Error)
    | PlainErr(msg: string)              // any other Error instance, with its message
    | Other(value: Value)                // a thrown value that is not an Error at all

  /** `error instanceof z.ZodError` */
  predicate IsValidationError(error: Thrown)
  {
    error.ValidationErr?
  }

  /** `error instanceof Error`: a validation error is an Error too. */
  predicate IsErrorInstance(error: Thrown)
  {
    error.ValidationErr? || error.PlainErr?
  }
}
