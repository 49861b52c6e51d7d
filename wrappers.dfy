/** Optional values and thrown errors, shared by every module. */
module Wrappers {

  /** A value that may be missing: `undefined`/`null` in the source. */
  datatype Option<+T> = None | Some(value: T) {
    function GetOr(default: T): T {
      match this
      case Some(v) => v
      case None => default
    }
  }

  /** The outcome of a computation that can throw. */
  datatype Result<+T> = Ok(value: T) | Err(message: string)
}
