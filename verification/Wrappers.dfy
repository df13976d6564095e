/** The two failure-carrying datatypes the other modules share. */
module Wrappers {

  /** A value that may be absent: Go's nil pointer, or a cache miss. */
  datatype Option<+T> = None | Some(value: T) {
    function GetOr(default: T): T {
      match this
      case None => default
      case Some(v) => v
    }
  }

  /** A value or an error: Go's pair of a result and an error. */
  datatype Result<+T, +E> = Ok(value: T) | Err(error: E)
}
