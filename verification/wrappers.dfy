/** Failure-carrying values shared by every module of the model. */
module Wrappers {

  /** A value that may be absent, as a Go pointer or a cache miss may be. */
  datatype Option<+T> = None | Some(value: T) {

    /** The wrapped value, or `default` when there is none. */
    function GetOr(default: T): T {
      match this
      case Some(v) => v
      case None => default
    }
  }

  /** The `(value, error)` pair of a Go call whose value is useless on error. */
  datatype Result<+T, +E> = Ok(value: T) | Err(error: E)
}
