/** Optional values and results with an error, shared by the modules of this model. */
module Wrappers {

  /** A value that may be absent: JavaScript's `null`/`undefined` where the source allows them. */
  datatype Option<+T> = None | Some(value: T)

  /** The value of an operation, or the error it throws. */
  datatype Result<+R, +E> = Success(value: R) | Failure(error: E)
}
