/** Result types shared by every component. */
module Wrappers {

  datatype Option<+T> = None | Some(value: T)

  /** A call that either returns a value or raises. */
  datatype Result<+T, +E> = Ok(value: T) | Err(error: E)
}
