/** Failure-compatible wrappers used throughout the model: a nullable value
    (`Option`), a value-or-error (`Result`) and a bare success-or-error
    (`Outcome`). */
module Wrappers {

  /** A value that may be absent; stands in for a Go nil pointer. */
  datatype Option<+T> = None | Some(value: T) {

    /** The value, or `default` when absent. */
    function GetOr(default: T): (r: T)
      ensures Some? ==> r == value
      ensures None? ==> r == default
    {
      match this
      case Some(v) => v
      case None => default
    }
  }

  /** A value or the error that prevented computing it; stands in for Go's
      `(T, error)` return pair. */
  datatype Result<+R, +E> = Success(value: R) | Failure(error: E)

  /** Success without a value, or an error; stands in for a bare Go `error`
      return where nil means success. */
  datatype Outcome<+E> = Pass | Fail(error: E)
}
