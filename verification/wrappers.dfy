/** Optional values and success/failure results, standing in for the
    `undefined`/`null` returns and the HTTP error responses of the system. */
module Wrappers {

  /** A value that may be absent (`undefined` or `null` in the system). */
  datatype Option<+T> = None | Some(value: T) {

    /** The wrapped value, or `default` when absent (the `??` operator). */
    function GetOr(default: T): T {
      match this
      case Some(v) => v
      case None => default
    }
  }

  /** The outcome of an operation that may be refused with an error. */
  datatype Result<+R, +E> = Success(value: R) | Failure(error: E)
}
