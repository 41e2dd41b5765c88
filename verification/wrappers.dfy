/** Option and Result, the two failure-carrying datatypes used throughout the model. */
module Wrappers {

  datatype Option<+T> = None | Some(value: T)

  /** A value, or the kind of error that the Python code would have raised instead. */
  datatype Result<+T, +E> = Ok(value: T) | Err(error: E)
}
