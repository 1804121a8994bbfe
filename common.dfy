/** Values shared by every module of the model: optional values, the Python
    exceptions the modelled code can raise, and a Python-style outcome. */
module Common {

  datatype Option<T> = None | Some(value: T)

  function GetOr<T>(o: Option<T>, default: T): T
  {
    match o
    case Some(v) => v
    case None => default
  }

  /** The exceptions the modelled code raises; an HTTP error is FastAPI's
      HTTPException with its status code. */
  datatype PyError =
    | ValueError
    | TypeError
    | AttributeError
    | ZeroDivisionError
    | KeyError
    | OverflowError
    | HttpError(status: int)

  /** A call either returns a value or raises. */
  datatype Outcome<T> = Ok(value: T) | Raised(error: PyError)

  /** The exception a call raised, if any. */
  function ErrorOf<T>(o: Outcome<T>): Option<PyError>
  {
    if o.Raised? then Some(o.error) else None
  }

  /** Of two steps run in order, the exception that escapes: the first
      step's, else the second's. */
  function OrElse(first: Option<PyError>, second: Option<PyError>): Option<PyError>
  {
    if first.Some? then first else second
  }

  /** Python's `x or 0` on a nullable integer column. */
  function IntOrZero(o: Option<int>): int
  {
    if o.Some? then o.value else 0
  }

  /** Python's `if x:` on a nullable integer: None and 0 are both false. */
  predicate IntTruthy(o: Option<int>)
  {
    o.Some? && o.value != 0
  }

  /** Python's `x or 0` on a nullable float column. */
  function RealOrZero(o: Option<real>): real
  {
    if o.Some? then o.value else 0.0
  }

  /** Python's `if x:` on a nullable float: None and 0.0 are both false. */
  predicate RealTruthy(o: Option<real>)
  {
    o.Some? && o.value != 0.0
  }

  /** Python's `if limit:` on an optional limit: None and 0 are both false. */
  predicate LimitTruthy(o: Option<nat>)
  {
    o.Some? && o.value != 0
  }
}
