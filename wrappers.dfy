/** Optional values and results with an error, as used throughout the model. */
module Wrappers {

  /** A value that may be absent (a TypeScript `T | null | undefined`). */
  datatype Option<+T> = None | Some(value: T) {
    function GetOr(default: T): T {
      match this
      case Some(v) => v
      case None => default
    }
  }

  /** The outcome of an operation that may throw. */
  datatype Result<+T, +E> = Ok(value: T) | Err(error: E)
}
