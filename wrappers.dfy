/** Optional values and failure-carrying results, used where the Kotlin code
    has nullable types or throws. */
module Wrappers {

  /** A Kotlin nullable value: `None` stands for `null`. */
  datatype Option<+T> = None | Some(value: T) {
    /** The elvis operator `?:`: the value, or `default` when it is null. */
    function GetOr(default: T): (r: T)
      ensures Some? ==> r == value
      ensures None? ==> r == default
    {
      match this
      case Some(v) => v
      case None => default
    }
  }

  /** A value, or the exception that stopped its computation. */
  datatype Result<+R, +E> = Success(value: R) | Failure(error: E)
}
