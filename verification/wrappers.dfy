/** Option and Result: Java's nullable references and thrown exceptions made explicit. */
module Wrappers {

  /** A value that may be absent (a Java reference that may be null). */
  datatype Option<+T> = None | Some(value: T)

  /** The outcome of an operation that may throw: a value or the reason it failed. */
  datatype Result<+T, +E> = Success(value: T) | Failure(error: E)
}
