/** Optional values and results with an error, as used throughout the model. */
module Wrappers {

  /** A Python value that may be `None`. */
  datatype Option<+T> = None | Some(value: T) {
    function GetOr(default: T): T {
      match this
      case Some(v) => v
      case None => default
    }
  }

  /** The outcome of a call that may raise. */
  datatype Result<+R, +E> = Ok(value: R) | Err(error: E)
}
