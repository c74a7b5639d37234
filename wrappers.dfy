/** Failure-carrying values shared by every module of the model. */
module Wrappers {

  datatype Option<T> = None | Some(value: T)

  /** The Python exceptions that the modelled code can raise. */
  datatype PyError =
    | AssertionError
    | KeyError
    | IndexError
    | ValueError
    | TypeError
    | ZeroDivisionError

  /** A computation that either returns a value or raises one of the exceptions above. */
  datatype Result<T> = Ok(value: T) | Err(error: PyError)

  /** A computation run for its effect, which either completes or raises. */
  datatype Outcome = Pass | Fail(error: PyError)
}
