/** Option and Result, the failure-carrying wrappers used throughout the model. */
module Wrappers {

  /** PHP's `null` versus a present value. */
  datatype Option<+T> = None | Some(value: T)

  /** A value, or the exception that the PHP code throws instead. */
  datatype Result<+T, +E> = Ok(value: T) | Err(error: E)
}
