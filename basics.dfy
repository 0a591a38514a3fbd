/** Optional values and results shared by every module: JavaScript's
    `undefined` / `null` become `None`, a thrown error becomes `Failure`. */
module Basics {

  datatype Option<+T> = None | Some(value: T) {
    /** The value, or `default` when it is missing (the `??` operator). */
    function GetOr(default: T): T {
      match this
      case Some(v) => v
      case None => default
    }
  }

  datatype Result<+T, +E> = Success(value: T) | Failure(error: E)
}
