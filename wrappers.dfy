/** Option and Result, shared by the other modules. */
module Wrappers {

  /** A value that may be absent (a Go `ok == false` or a nil result). */
  datatype Option<+T> = None | Some(value: T)

  /** A value or the error that replaced it (a Go `(value, error)` pair). */
  datatype Result<+T, +E> = Success(value: T) | Failure(error: E)
}
