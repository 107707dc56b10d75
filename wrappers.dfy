/** Optional values and exception-carrying results shared by every module. */
module Wrappers {

  /** A Python value that may be `None`. */
  datatype Option<+T> = None | Some(value: T) {

    /** `dict.get(key, default)` once the lookup has produced an Option. */
    function GetOr(default: T): (r: T)
      ensures Some? ==> r == value
      ensures None? ==> r == default
    {
      match this
      case Some(v) => v
      case None => default
    }
  }

  /** A computation that either returns a value or raises an exception of type E. */
  datatype Result<+R, +E> = Success(value: R) | Failure(error: E)
}
