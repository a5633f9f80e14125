/** The optional value and the result every component of the model returns. */
module Wrappers {

  /** A value that may be missing. */
  datatype Option<+T> = None | Some(value: T)

  /** A value, or what kept it from being made. */
  datatype Result<+T, +E> = Ok(value: T) | Err(error: E)
}
