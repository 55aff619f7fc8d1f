/** Failure-compatible wrappers shared by the model: `Option` stands for the
    TypeScript `T | null` / `T | undefined` values, `Result` for an operation
    that either produces a value or a user-visible error message. */
module Wrappers {

  datatype Option<+T> = None | Some(value: T) {

    /** The `?? fallback` operator of TypeScript. */
    function GetOr(fallback: T): T {
      match this
      case Some(v) => v
      case None => fallback
    }
  }

  datatype Result<+R, +E> = Success(value: R) | Failure(error: E)
}
