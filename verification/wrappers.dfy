/** Failure-compatible wrappers used throughout the model: `Option` for values
    JavaScript may leave `undefined`, `Result` for computations that may throw. */
module Wrappers {

  datatype Option<+T> = None | Some(value: T) {

    /** The wrapped value, or `default` when there is none. */
    function GetOr(default: T): T {
      match this
      case Some(v) => v
      case None => default
    }
  }

  /** `Failure(e)` stands for a thrown exception whose string form is `e`. */
  datatype Result<+R, +E> = Success(value: R) | Failure(error: E)
}
