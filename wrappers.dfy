/** Absent values and error returns, in place of Python's None and exceptions. */
module Wrappers {

  /** Python's `None` or a value. */
  datatype Option<+T> = None | Some(value: T)

  /** A value, or the exception the source would have raised. */
  datatype Result<+R, +E> = Success(value: R) | Failure(error: E)
}
