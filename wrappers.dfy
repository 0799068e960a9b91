/** A missing value, a value or its error, and a step that passed or failed. */
module Wrappers {

  /** A value that may be missing. */
  datatype Option<+T> = None | Some(value: T)

  /** A value, or the error that replaced it. */
  datatype Result<+T, +E> = Success(value: T) | Failure(error: E)

  /** Normal completion, or the error that stopped a computation. */
  datatype Outcome<+E> = Pass | Fail(error: E)
}
