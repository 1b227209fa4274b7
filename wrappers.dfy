/** Optional values and results with an error, used wherever the JavaScript
    code returns null/undefined or throws. */
module Wrappers {

  datatype Option<+T> = None | Some(value: T) {
    /** `x || d` in JavaScript when only absence makes `x` falsy. */
    function GetOr(default: T): T {
      match this
      case Some(v) => v
      case None => default
    }
  }

  datatype Result<+T, +E> = Ok(value: T) | Err(error: E)
}
