/** Option and Result, used for the source's null results and thrown load failures. */
module Wrappers {

  /** A value that may be absent (the source's `null`). */
  datatype Option<+T> = None | Some(value: T)

  /** The outcome of an operation that the source lets throw. */
  datatype Result<+R, +E> = Success(value: R) | Failure(error: E)
}
