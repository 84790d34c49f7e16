/** Option and Result values shared by the model, and the Python exceptions it raises. */
module Wrappers {

  datatype Option<+T> = None | Some(value: T)

  /** The Python exceptions that the modelled code raises (messages are left out). */
  datatype Exception =
    | ValueError
    | KeyError
    | IndexError
    | AssertionError
    | ZeroDivisionError
    | RuntimeError

  /** A return value, or the exception raised instead of returning. */
  datatype Result<+T> = Ok(value: T) | Err(error: Exception)

  /**
   * What a generator produced before it ended: the values it yielded, and
   * the exception that ended it, if one did.
   */
  datatype Generated<+T> = Generated(yielded: seq<T>, raised: Option<Exception>)
}
