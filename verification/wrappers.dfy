/** Failure-carrying result types used by the logger model. */
module Wrappers {

  /** A value that may be missing: a file that does not exist, a record that is not forwarded. */
  datatype Option<+T> = None | Some(value: T)

  /** The `(value, error)` pair of a Go call: exactly one of the two is meaningful. */
  datatype Result<+R, +E> = Success(value: R) | Failure(error: E)
}
