/** The optional value and the value-or-error result used across the
    model. */
module Wrappers {

  /** A value that may be absent: a dictionary key that was never written or was
      deleted, or a backend call that produced nothing. */
  datatype Option<+T> = None | Some(value: T) {

    /** Returns the carried value, or `default` when absent. */
    function GetOr(default: T): (r: T)
      ensures Some? ==> r == value
      ensures None? ==> r == default
    {
      match this
      case Some(v) => v
      case None => default
    }
  }

  /** Either a value or an error raised before any work was done. */
  datatype Result<+R, +E> = Success(value: R) | Failure(error: E)
}
