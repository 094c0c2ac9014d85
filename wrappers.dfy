/** Optional values and success/failure results, used for absent map entries,
    optional fields, invalid dates and the exceptions the services throw. */
module Wrappers {

  datatype Option<+T> = None | Some(value: T) {
    function GetOr(default: T): T {
      match this
      case Some(v) => v
      case None => default
    }
  }

  /** The outcome of an operation that either returns a value or throws an
      Error whose message is `error`. */
  datatype Result<+R, +E> = Success(value: R) | Failure(error: E)
}
