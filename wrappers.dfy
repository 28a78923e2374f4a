/** Nullable values and success-or-error outcomes, as used by every other module. */
module Wrappers {

  /** A Kotlin nullable value: `None` stands for `null`. */
  datatype Option<+T> = None | Some(value: T) {
    function GetOr(default: T): T {
      match this
      case Some(v) => v
      case None => default
    }
  }

  /** The outcome of a reactive pipeline: a value, or the error the Mono failed with. */
  datatype Result<+T, +E> = Success(value: T) | Failure(error: E)
}
