/** Option and Result, the two failure-carrying types the model uses. */
module Wrappers {

  /** A value that may be missing: a regular-expression search that found nothing. */
  datatype Option<+T> = None | Some(value: T)

  /** The outcome of an operation that can fail with an error message. */
  datatype Result<+T, +E> = Success(value: T) | Failure(error: E)
}
