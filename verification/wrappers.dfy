/** Optional and tagged results shared by the playlist modules, plus the one
    piece of Python truthiness the application relies on. */
module Wrappers {

  /** A value that may be absent: Python's `None` versus a present value. */
  datatype Option<+T> = None | Some(value: T) {

    /** The wrapped value, or `default` when absent. */
    function GetOr(default: T): T {
      match this
      case Some(v) => v
      case None => default
    }
  }

  /** A success value or an error value. */
  datatype Result<+R, +E> = Success(value: R) | Failure(error: E) {

    /** Forgets the error: every failure becomes `None`. */
    function ToOption(): Option<R> {
      match this
      case Success(v) => Some(v)
      case Failure(_) => None
    }
  }

  /** Python truthiness of an optional string: both `None` and `""` are falsy. */
  predicate IsTruthy(s: Option<string>) {
    s.Some? && s.value != ""
  }
}
