/** Option and Result, used for PHP's null values and for exceptions. */
module Wrappers {

  /** A value that may be absent (PHP's `null`, or `false` from a lookup). */
  datatype Option<+T> = None | Some(value: T)

  /** The outcome of an operation that either returns a value or throws. */
  datatype Result<+R, +E> = Success(value: R) | Failure(error: E)
}
