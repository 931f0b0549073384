/** Failure-carrying values shared by the whole model. */
module Wrappers {

  /** A value that may be missing: a SQL NULL, an absent dict key, a call that gave up. */
  datatype Option<+T> = None | Some(value: T) {
    function GetOr(default: T): T {
      match this
      case Some(v) => v
      case None => default
    }
  }

  /** The result of an operation that may raise. */
  datatype Result<+T, +E> = Success(value: T) | Failure(error: E)
}
