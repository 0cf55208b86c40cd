/** Outcome datatypes used in place of exceptions and nullable values. */
module Wrappers {

  /** A value that may be absent (a `null` result, a missing field, a call that threw). */
  datatype Option<+T> = None | Some(value: T) {
    function GetOr(default: T): T {
      match this
      case Some(v) => v
      case None => default
    }
  }

  /** A success value or an error message (a rejected promise, a thrown `Error`). */
  datatype Result<+R, +E> = Success(value: R) | Failure(error: E)
}
