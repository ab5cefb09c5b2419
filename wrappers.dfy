/** Optional values and results with an error, shared by every module. */
module Wrappers {

  /** A value that may be absent: `undefined` in the original JavaScript. */
  datatype Option<+T> = None | Some(value: T)

  /** The outcome of an operation that either yields a value or fails with an error. */
  datatype Result<+T, +E> = Ok(value: T) | Err(error: E)
}
