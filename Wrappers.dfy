/** Failure-compatible wrappers shared by every module: a value that may be absent
    (a Java `null` or an empty `Optional`) and a computation that may raise an error. */
module Wrappers {

  datatype Option<+T> = None | Some(value: T)

  /** The outcome of an operation that either yields a value or raises an error. */
  datatype Result<+T, +E> = Success(value: T) | Failure(error: E)
}
