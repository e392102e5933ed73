/** Option and Result values standing in for the engine's null pointers and exceptions. */
module Wrappers {

  /** A value that may be absent (a C++ pointer that may be null). */
  datatype Option<+T> = None | Some(value: T)

  /** The outcome of an operation that may raise instead of returning. */
  datatype Result<+T, +E> = Success(value: T) | Failure(error: E)
}
