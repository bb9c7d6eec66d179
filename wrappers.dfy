/** Option and Result: the model's stand-ins for JavaScript's `undefined`/`null`
    and for a promise that rejects or a function that throws. */
module Wrappers {

  datatype Option<+T> = None | Some(value: T) {
    function GetOr(default: T): T {
      match this
      case Some(v) => v
      case None => default
    }
  }

  datatype Result<+R, +E> = Success(value: R) | Failure(error: E)
}
