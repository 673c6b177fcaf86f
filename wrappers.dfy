/** Optional values and results with an error message, used for the
    Python `None` returns and raised exceptions of the modelled code. */
module Wrappers {

  datatype Option<+T> = None | Some(value: T) {
    function GetOr(default: T): T {
      match this
      case Some(v) => v
      case None => default
    }
  }

  /** An operation that either returns a value or raises with a message. */
  datatype Result<+T> = Ok(value: T) | Err(error: string)
}
