/** Failure-carrying values used throughout the model. */
module Wrappers {

  /** std::optional: a value or nothing. */
  datatype Option<T> = None | Some(value: T)

  /** A value, or the error that the source would throw instead of returning it. */
  datatype Result<T, E> = Ok(value: T) | Err(error: E)
}
