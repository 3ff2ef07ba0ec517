/** Failure-carrying wrappers shared by every module of the model. */
module Wrappers {

  /** A value that may be absent (a Go `nil` error, a `nil` pointer). */
  datatype Option<+T> = None | Some(value: T)

  /** A value or an error, the model of Go's `(value, error)` return pairs. */
  datatype Result<+T, +E> = Success(value: T) | Failure(error: E)
}
