/** Option and Result: the model's stand-ins for Python's `None` and for a raised
    `cv.Invalid` (or any other exception that aborts validation). */
module Wrappers {

  datatype Option<+T> = None | Some(value: T) {
    function GetOr(default: T): T {
      match this
      case Some(v) => v
      case None => default
    }
  }

  datatype Result<+T, +E> = Ok(value: T) | Err(error: E)
}
