/** Optional values and failure-carrying results. */
module Wrappers {

  /** A value that may be absent; `None` stands for JavaScript's `undefined`. */
  datatype Option<+T> = None | Some(value: T) {
    function GetOr(default: T): T {
      match this
      case Some(v) => v
      case None => default
    }
  }

  /** The outcome of an operation that can throw: a value or the reason it failed. */
  datatype Result<+T, +E> = Success(value: T) | Failure(error: E)
}
