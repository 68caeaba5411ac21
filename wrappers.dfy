/** Optional values and success-or-failure results, shared by every module. */
module Wrappers {

  /** A value that may be missing: JavaScript `undefined`/`null`, or SQL NULL. */
  datatype Option<+T> = None | Some(value: T) {
    function GetOr(default: T): T {
      match this
      case Some(v) => v
      case None => default
    }
  }

  /** The outcome of an operation that either produces a value or fails. */
  datatype Result<+T, +E> = Ok(value: T) | Err(error: E)
}
