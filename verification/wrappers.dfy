/** Option, Result and Outcome: the shapes used for JavaScript's `undefined`/`null`
    results and for operations that either return a value or throw an error. */
module Wrappers {

  datatype Option<+T> = None | Some(value: T) {
    function GetOr(default: T): T {
      match this
      case Some(v) => v
      case None => default
    }
  }

  /** A value, or the error an operation throws. */
  datatype Result<+R, +E> = Success(value: R) | Failure(error: E)

  /** An operation that returns nothing, or the error it throws. */
  datatype Outcome<+E> = Pass | Fail(error: E)
}
