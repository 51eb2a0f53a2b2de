/** The two failure-compatible wrappers the model needs: a JavaScript value that may
    be `null`/`undefined` is an `Option`, and an operation that may throw is a `Result`. */
module Wrappers {

  datatype Option<+T> = None | Some(value: T) {
    function GetOr(default: T): T {
      match this
      case Some(v) => v
      case None => default
    }
  }

  /** The JavaScript exceptions that the modelled code can raise. */
  datatype JsError = TypeError | IndexSizeError

  datatype Result<+T> = Ok(value: T) | Err(error: JsError)
}
