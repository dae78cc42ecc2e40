/**
 A value that may be missing, and a value or an error code.
 */
module Wrappers {
  datatype Option<T> = None | Some(value: T)

  datatype Result<T> = Ok(value: T) | Err(error: int)
}
