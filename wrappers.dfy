/** Option and result types used wherever the source may have no value or raises. */
module Wrappers {

  datatype Option<+T> = None | Some(value: T) {
    /** The wrapped value, or `default` when there is none. */
    function GetOr(default: T): T
    {
      match this
      case Some(v) => v
      case None => default
    }
  }

  datatype Result<+T, +E> = Success(value: T) | Failure(error: E)

  /** A step that either completes or fails with an error and no value. */
  datatype Outcome<+E> = Pass | Fail(error: E)
}
