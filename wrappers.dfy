/** Option and Result, the failure-carrying values used throughout the model. */
module Wrappers {
  datatype Option<+T> = None | Some(value: T)

  /** A call that either returns a value or raises one of the source's exceptions. */
  datatype Result<+T, +E> = Ok(value: T) | Err(error: E)
}
