/** Stock result types: optional columns, and what a request handler returns. */
module Wrappers {

  datatype Option<+T> = None | Some(value: T) {
    function GetOr(default: T): T {
      if None? then default else value
    }
  }

  /** The API errors the routes throw; `TooManyRequests` carries the advised wait. */
  datatype Error =
    | ValidationFailed
    | BadRequest
    | Forbidden
    | NotFound
    | Conflict
    | KycRequired
    | TooManyRequests(seconds: int)

  datatype Result<+T> = Ok(value: T) | Err(error: Error)
}
