/** The two result shapes the models share. */
module Wrappers {

  datatype Option<+T> = None | Some(value: T)

  /** A value, or the C++ or Java exception that was thrown instead of it. */
  datatype Result<+T> = Ok(value: T) | Err(message: string)
}
