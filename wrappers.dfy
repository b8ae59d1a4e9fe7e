/** Failure-carrying values shared by every module of the model. */
module Wrappers {

  /** A value that may be absent: an empty or untouched form field, a missed lookup. */
  datatype Option<+T> = None | Some(value: T)

  /** The outcome of a backend call: a value, or the exception the controller throws. */
  datatype Result<+R, +E> = Success(value: R) | Failure(error: E)
}
