/** Option and Result: the model's stand-ins for Kotlin's nullable types and for thrown exceptions. */
module Wrappers {

  /** A Kotlin `T?`: `None` is `null`. */
  datatype Option<+T> = None | Some(value: T) {
    function GetOr(default: T): T {
      match this
      case Some(v) => v
      case None => default
    }
  }

  /** The outcome of a call that either returns a value or throws the exception `error`. */
  datatype Result<+T, +E> = Success(value: T) | Failure(error: E)
}
