/** Option and Result, used wherever the source has null/undefined or throws. */
module Wrappers {
  /** A value that may be absent: Java's null, JavaScript's undefined or a missing key. */
  datatype Option<+T> = None | Some(value: T) {
    function GetOr(default: T): T {
      match this
      case Some(v) => v
      case None => default
    }
  }

  /** The outcome of an operation that either returns a value or raises an error. */
  datatype Result<+T, +E> = Ok(value: T) | Err(error: E)
}
