/** Option and Result: missing values and error returns of the modelled handlers. */
module Wrappers {

  /** A value that may be absent: `null`/`undefined` in the source, or NaN for a parsed number. */
  datatype Option<+T> = None | Some(value: T) {
    function GetOr(default: T): T {
      match this
      case Some(v) => v
      case None => default
    }
  }

  /** The outcome of an operation that either succeeds with a value or fails with an error. */
  datatype Result<+R, +E> = Success(value: R) | Failure(error: E)
}
