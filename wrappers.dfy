/** Failure-carrying values shared by the modules of this model. */
module Wrappers {

  /** A value that may be absent (a NULL pointer, an unset field). */
  datatype Option<+T> = None | Some(value: T)

  /** A handle returned on success, or the typed error a failing call sets. */
  datatype Result<+T, +E> = Ok(value: T) | Err(error: E)
}
