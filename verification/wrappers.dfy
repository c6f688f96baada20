/** Failure-compatible wrappers shared by the model: an optional value and a
    value-or-error result. */
module Wrappers {

  /** A value that may be absent; stands in for Go's nil pointers. */
  datatype Option<+T> = None | Some(value: T)

  /** Either a value or an error; stands in for Go's `(T, error)` pairs. */
  datatype Result<+T, +E> = Success(value: T) | Failure(error: E)
}
