/** Option and Result, the error-carrying shapes used by every other module. */
module Wrappers {

  /** A value that may be missing: a nil Go pointer, slice or map entry. */
  datatype Option<+T> = None | Some(value: T)

  /** A value or an error, for Go functions that return `(T, error)`. */
  datatype Result<+T, +E> = Ok(value: T) | Err(error: E)
}
