/** Optional values and results, shared by every module of the model. */
module Wrappers {

  /** A value that may be absent (Python's `None`). */
  datatype Option<+T> = None | Some(value: T)

  /** The outcome of an operation that can be refused with an error. */
  datatype Result<+T, +E> = Ok(value: T) | Err(error: E)
}
