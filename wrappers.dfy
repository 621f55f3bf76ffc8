/** Optional values and results with an error, shared by the other modules. */
module Wrappers {

  /** A value that may be absent: Python's `None` or a value. */
  datatype Option<+T> = None | Some(value: T)

  /** The outcome of an operation that may be refused with an error. */
  datatype Result<+R, +E> = Ok(value: R) | Err(error: E)
}
