/** Failure-carrying results for the engine's `(value, error)` returns. */
module Wrappers {

  datatype Option<+T> = None | Some(value: T)

  /** A Go `(T, error)` pair: either a value or the text of the error. */
  datatype Result<+T> = Ok(value: T) | Err(error: string)

  /** A Go `error` result of an operation that returns nothing else. */
  datatype Outcome = Pass | Fail(error: string)
}
