/** Failure-compatible wrappers shared by every module of the model. */
module Wrappers {

  /** A value that may be absent: Java's `null`, or a search that found nothing. */
  datatype Option<T> = None | Some(value: T)

  /** The outcome of a Java call that either returns a value or throws. */
  datatype Result<T, E> = Success(value: T) | Failure(error: E)
}
