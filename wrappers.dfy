/** Option and Result values used for JavaScript's `null`/`undefined` and thrown errors. */
module Wrappers {

  /** `None` stands for a missing value (`undefined` or `null`). */
  datatype Option<+T> = None | Some(value: T) {
    function GetOr(default: T): T {
      match this
      case Some(v) => v
      case None => default
    }
  }

  /** `Failure` stands for an exception carrying its message. */
  datatype Result<+R, +E> = Success(value: R) | Failure(error: E)
}
