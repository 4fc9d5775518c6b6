/** Optional values and the exceptions the search code raises, as values. */
module Wrappers {

  datatype Option<+T> = None | Some(value: T) {
    function GetOr(default: T): T {
      match this
      case Some(v) => v
      case None => default
    }
  }

  /** The Python exceptions that the modelled code raises or lets escape. */
  datatype Error =
    | ValueError(message: string)
    | IndexError
    | KeyError
    | TypeError
    | ZeroDivisionError

  datatype Result<+T> = Ok(value: T) | Err(error: Error)
}
