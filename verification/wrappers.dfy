/** Optional values and outcomes of calls that may throw, shared by every module. */
module Wrappers {

  /** A value that may be absent: JavaScript `undefined`, `null`, or a NaN number. */
  datatype Option<+T> = None | Some(value: T) {

    /** The wrapped value, or `default` when absent. */
    function GetOr(default: T): T {
      match this
      case Some(v) => v
      case None => default
    }
  }

  /** The outcome of a call that may throw: `Failure` carries the thrown message. */
  datatype Result<+R> = Success(value: R) | Failure(error: string)
}
