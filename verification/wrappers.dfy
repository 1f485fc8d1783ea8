/** Option and Result, shared by every module. */
module Wrappers {

  /** A value that may be absent: a missing header key, a failed fetch, an absent file. */
  datatype Option<+T> = None | Some(value: T)

  /** The outcome of a step that either produces a value or stops with an error. */
  datatype Result<+T, +E> = Ok(value: T) | Err(error: E)
}
