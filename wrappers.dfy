/** Option and Result values shared by every module of the model. */
module Wrappers {

  /** An optional value: Python `None`, PHP `null`, TypeScript `undefined`. */
  datatype Option<+T> = None | Some(value: T) {
    function GetOr(default: T): T {
      match this
      case Some(v) => v
      case None => default
    }
  }

  /** The outcome of an operation that may raise: the value, or the reason it raised. */
  datatype Result<+T> = Success(value: T) | Failure(error: string)
}
