/** Failure-compatible helper types shared by every module of the scanner model. */
module Wrappers {

  /** A value that may be absent: a Python dict key that is missing, or `None`. */
  datatype Option<+T> = None | Some(value: T) {
    function GetOr(default: T): T {
      match this
      case Some(v) => v
      case None => default
    }
  }

  /** The outcome of an operation that Python would end by raising `E`. */
  datatype Result<+T, +E> = Success(value: T) | Failure(error: E)
}
