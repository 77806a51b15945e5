/** Optional values and success-or-failure results, used for JavaScript's
    `undefined`/`null` fields and for thrown errors. */
module Wrappers {

  datatype Option<+T> = None | Some(value: T) {
    /** The value, or `default` when absent (JavaScript's `x || default` on an optional string). */
    function GetOr(default: T): T {
      match this
      case Some(v) => v
      case None => default
    }
  }

  datatype Result<+R, +E> = Success(value: R) | Failure(error: E)
}
