/** Optional values and results, used where the source has `None` or raises. */
module Wrappers {

  /** A value that may be absent: Python's `None` or a JSON `null`. */
  datatype Option<+T> = None | Some(value: T)

  /** The outcome of a step that either produces a value or stops with an error. */
  datatype Result<+T, +E> = Ok(value: T) | Err(error: E)
}
