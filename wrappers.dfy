/** Optional values and results, standing for JavaScript's `T | null` and for
    operations that either succeed or throw. */
module Wrappers {

  /** `None` is JavaScript's `null` / `undefined`. */
  datatype Option<+T> = None | Some(value: T) {
    /** `x ?? d` */
    function GetOr(default: T): T {
      match this
      case Some(v) => v
      case None => default
    }
  }

  /** `Err` is a thrown `Error` carrying its message. */
  datatype Result<+T, +E> = Ok(value: T) | Err(error: E)
}
