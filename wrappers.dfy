/** Optional values and results with an error, shared by every module of the model. */
module Wrappers {

  /** A value that may be absent: Python's `None` on one side, a present value on the other. */
  datatype Option<+T> = None | Some(value: T)

  /** The outcome of an operation that may raise or report an error instead of producing a value. */
  datatype Result<+T, +E> = Ok(value: T) | Err(error: E)
}
