/** Wrappers shared by every module of the model: Python's `None`-or-value
    becomes `Option`, and an operation that may raise becomes a function
    returning `Result`. */
module Wrappers {

  datatype Option<+T> = None | Some(value: T) {

    /** The wrapped value, or `default` when there is none (Python's `x or default`
        for values whose only falsy form is `None`). */
    function GetOr(default: T): T {
      match this
      case Some(v) => v
      case None => default
    }
  }

  /** Either a value or the error an operation raised. */
  datatype Result<+R, +E> = Success(value: R) | Failure(error: E)
}
