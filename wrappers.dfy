/** Failure-compatible wrappers used for the error paths of the model. */
module Wrappers {

  /** Python's `None` or a present value. */
  datatype Option<T> = None | Some(value: T)

  /** The value of an operation, or the exception the source raises instead. */
  datatype Result<T, E> = Ok(value: T) | Err(error: E)
}
