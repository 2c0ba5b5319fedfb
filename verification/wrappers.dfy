/** Optional values and fallible results shared by every module of the model. */
module Wrappers {

  /** A value that may be absent: JavaScript's `undefined`/`null` where the source allows
      it, and, for numbers, a result that is not finite (NaN or an infinity). */
  datatype Option<+T> = None | Some(value: T) {
    function GetOr(default: T): T {
      match this
      case Some(v) => v
      case None => default
    }
  }

  /** A computation that either yields a value or fails with an error (a thrown exception
      or an error response in the source). */
  datatype Result<+T, +E> = Ok(value: T) | Err(error: E)
}
