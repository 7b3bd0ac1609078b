/** Option and Result values, used wherever the Python code returns None or raises. */
module Wrappers {

  datatype Option<+T> = None | Some(value: T) {
    function GetOr(default: T): T {
      match this
      case Some(v) => v
      case None => default
    }
  }

  /** A Python call that either returns a value or raises an exception, named by `error`. */
  datatype Result<+T> = Ok(value: T) | Err(error: string)
}
