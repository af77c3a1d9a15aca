/** Failure-compatible wrappers: the model's stand-ins for `undefined`/`null`
    (Option) and for thrown exceptions (Result, Outcome). */
module Wrappers {

  datatype Option<+T> = None | Some(value: T) {

    /** The value, or `default` when absent: JavaScript's `x ?? default`. */
    function GetOr(default: T): T {
      match this
      case Some(v) => v
      case None => default
    }
  }

  datatype Result<+R, +E> = Success(value: R) | Failure(error: E)

  /** The outcome of a call that returns nothing but may fail. */
  datatype Outcome<+E> = Pass | Fail(error: E)
}
