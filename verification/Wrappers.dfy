/** The failure-carrying datatypes the other modules share. */
module Wrappers {
  datatype Option<+T> = None | Some(value: T)

  /** A raised Python exception is an Err; the caller's transaction then rolls back. */
  datatype Result<+T, +E> = Ok(value: T) | Err(error: E)
}
