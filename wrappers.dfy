/** Option and Result, the two failure-carrying datatypes the model uses. */
module Wrappers {

  datatype Option<+T> = None | Some(value: T)

  /** A computation that either succeeds with a value or fails with an error
      (the source throws an exception in the failing case). */
  datatype Result<+T, +E> = Success(value: T) | Failure(error: E)
}
