/** Option and Result values, standing for Go's (value, error) returns. */
module Wrappers {

  datatype Option<+T> = None | Some(value: T)

  /** A Go call that returns either a value and a nil error, or an error. */
  datatype Result<+R, +E> = Success(value: R) | Failure(error: E)
}
