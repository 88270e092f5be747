/** Optional values and fallible results, used wherever the source returns None or raises. */
module Wrappers {

  datatype Option<+T> = None | Some(value: T) {
    /** Returns the value held by Some, or `default` for None. */
    function GetOr(default: T): T {
      match this
      case Some(v) => v
      case None => default
    }
  }

  /** An operation that either produced a value or raised an exception with a message. */
  datatype Result<+R> = Success(value: R) | Failure(error: string)
}
