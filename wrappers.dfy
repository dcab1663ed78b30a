/** Failure-compatible result types used for the Python exceptions and `None` returns of the model. */
module Wrappers {

  /** A value that may be absent (Python's `Optional`). */
  datatype Option<+T> = None | Some(value: T)

  /** A value or the error the Python code raises instead of returning it. */
  datatype Result<+T, +E> = Success(value: T) | Failure(error: E)

  /** Completion of an operation without a value, or the error it raises. */
  datatype Outcome<+E> = Pass | Fail(error: E)
}
