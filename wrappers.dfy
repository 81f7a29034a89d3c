/** Option and the explicit outcome of an asynchronous use-case call. */
module Wrappers {

  datatype Option<+T> = None | Some(value: T) {
    /** The `??` operator: the wrapped value, or `default` when absent. */
    function GetOr(default: T): T {
      match this
      case Some(v) => v
      case None => default
    }
  }

  /** What an observable returned by a use case delivered: one value, or an error. */
  datatype Outcome<+T> = Success(value: T) | Failure
}
