/** Optional values and results with an error message, as used throughout the model. */
module Wrappers {

  datatype Option<+T> = None | Some(value: T)

  /** An operation that either yields a value or raises an error carrying a message. */
  datatype Result<+T> = Ok(value: T) | Err(message: string)
}
