/** Failure-compatible wrappers used across the model. */
module Wrappers {

  /** A value that may be absent (PHP `null`). */
  datatype Option<+T> = None | Some(value: T) {
    function GetOr(default: T): T {
      match this
      case Some(v) => v
      case None => default
    }
  }

  /** Either a value or an error (a PHP exception). */
  datatype Result<+T, +E> = Ok(value: T) | Err(error: E) {
    predicate IsFailure() { Err? }
    function PropagateFailure<U>(): Result<U, E>
      requires Err?
    {
      Err(error)
    }
    function Extract(): T
      requires Ok?
    {
      value
    }
  }

  /** Success without a value, or an error. */
  datatype Outcome<+E> = Pass | Fail(error: E)
}
