/** Option and Result, the failure-carrying values used throughout the model. */
module Wrappers {

  datatype Option<+T> = None | Some(value: T)

  /** The source's `Result<T, String>`: either a value or an error message. */
  datatype Result<+T> = Ok(value: T) | Err(error: string)
}
