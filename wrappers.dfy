/** Option and Result, the two failure-carrying datatypes used throughout the model. */
module Wrappers {

  datatype Option<+T> = None | Some(value: T)

  /** A value, or the exception the Python code would raise instead. */
  datatype Result<+T, +E> = Ok(value: T) | Err(error: E)
}
