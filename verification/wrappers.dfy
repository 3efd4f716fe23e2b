/** Failure-carrying result types used in place of Python exceptions. */
module Wrappers {

  datatype Option<+T> = None | Some(value: T)

  /** A value or the error the Python code would raise instead of returning it. */
  datatype Result<+T, +E> = Success(value: T) | Failure(error: E)

  /** The outcome of an operation that returns nothing (`None`) or raises. */
  datatype Outcome<+E> = Pass | Fail(error: E)
}
