/** Option and Result, the two failure-carrying datatypes the model uses
    in place of `null` and of the handlers' early `return alert(...)`. */
module Wrappers {

  /** A value that may be absent (the source's `T | null`). */
  datatype Option<+T> = None | Some(value: T) {

    /** The carried value, or `default` when absent. */
    function GetOr(default: T): T {
      match this
      case Some(v) => v
      case None => default
    }
  }

  /** Either the new value of a successful step or the reason it was rejected. */
  datatype Result<+R, +E> = Success(value: R) | Failure(error: E)
}
