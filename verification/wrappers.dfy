/** Optional values and results with an error, used wherever the modelled
    code returns `null`/`undefined` or throws. */
module Wrappers {

  /** A value that may be absent (`null` or `undefined` in the source). */
  datatype Option<+T> = None | Some(value: T) {

    /** The wrapped value, or `default` when absent. */
    function GetOr(default: T): T {
      match this
      case Some(v) => v
      case None => default
    }
  }

  /** Either a value or the error that the source would throw. */
  datatype Result<+R, +E> = Success(value: R) | Failure(error: E)
}
