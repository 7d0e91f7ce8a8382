/** Option and Result, the two failure-carrying types the model uses. */
module Wrappers {

  /** A value that may be absent: Python's `None` or a value. */
  datatype Option<+T> = None | Some(value: T) {
    function GetOr(default: T): T {
      match this
      case Some(v) => v
      case None => default
    }
  }

  /** The outcome of an operation that raises on failure. */
  datatype Result<+T, +E> = Ok(value: T) | Err(error: E)
}
