/** Option and Result, used for absent fields and for the exceptions that abort a conversion. */
module Wrappers {

  datatype Option<+T> = None | Some(value: T)

  datatype Result<+T, +E> = Ok(value: T) | Err(error: E)
}
