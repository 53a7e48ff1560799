/** Java's `null` and thrown exceptions, made explicit as values. */
module Wrappers {

  /** A reference that may be `null` (None) or hold a value. */
  datatype Option<+T> = None | Some(value: T)

  /** The outcome of a call that either returns normally or throws. */
  datatype Result<+T, +E> = Ok(value: T) | Err(error: E)
}
