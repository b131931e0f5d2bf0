/** Option and the uniform response envelope `{success, message, payload?}`
    that every backend route answers with. */
module Wrappers {

  datatype Option<+T> = None | Some(value: T) {
    function GetOr(default: T): T {
      match this
      case Some(v) => v
      case None => default
    }
  }

  /** A route's JSON answer: `success: true` with a message and a payload,
      or `success: false` with a message only. */
  datatype Reply<+T> = Success(message: string, payload: T) | Failure(message: string)
}
