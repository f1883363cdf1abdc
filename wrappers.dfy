/** Option and Result, the two shapes every handler's outcome takes. */
module Wrappers {

  datatype Option<+T> = None | Some(value: T)

  /** A handler either returns its response value or raises an HTTP error. */
  datatype Result<+T, +E> = Ok(value: T) | Err(error: E)
}
