/** Option and Result, used for the nullable values and the raised errors of the model. */
module Wrappers {

  /** A value that may be absent; stands for the source's `null`/`undefined`. */
  datatype Option<+T> = None | Some(value: T)

  /** The result of an operation that can fail with an error value. */
  datatype Result<+R, +E> = Success(value: R) | Failure(error: E)
}
