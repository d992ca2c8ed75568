/** Failure-compatible wrappers: Option for a nullable reference, Result for an operation that can throw. */
module Wrappers {

  /** A value that may be absent, in place of a nullable reference. */
  datatype Option<+T> = None | Some(value: T)

  /** The outcome of an operation that either yields a value or fails with an error. */
  datatype Result<+T, +E> = Success(value: T) | Failure(error: E)
}
