/** Failure-carrying wrappers shared by the model: Go's nil pointers and
    (value, error) pairs become Option and Result. */
module Wrappers {

  /** A value that may be absent (a nil pointer or nil slice in the source). */
  datatype Option<+T> = None | Some(value: T)

  /** Either a value or an error, as a Go `(T, error)` pair is used. */
  datatype Result<+R, +E> = Success(value: R) | Failure(error: E)
}
