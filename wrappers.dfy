/** Optional values and the service layer's error results. */
module Wrappers {

  datatype Option<+T> = None | Some(value: T) {
    function GetOr(default: T): T {
      match this
      case Some(v) => v
      case None => default
    }
  }

  /** JavaScript's truth test `if (x)` on an optional text: the text is given
      and is not the empty string, which is falsy. */
  predicate Given(x: Option<string>) {
    x.Some? && x.value != ""
  }

  /** The HTTP exceptions the services throw, with their messages. */
  datatype Error =
    | NotFound(message: string)    // 404
    | Forbidden(message: string)   // 403
    | Conflict(message: string)    // 409

  datatype Result<+T> = Ok(value: T) | Err(error: Error)
}
