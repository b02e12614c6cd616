/** Option, Result and Outcome: the values that stand for Python's `None`
    and for the exceptions the bot raises and catches. */
module Wrappers {

  datatype Option<+T> = None | Some(value: T) {
    function GetOr(default: T): T {
      match this
      case Some(v) => v
      case None => default
    }
  }

  datatype Result<+R, +E> = Success(value: R) | Failure(error: E)

  /** The result of an operation that only succeeds or raises. */
  datatype Outcome<+E> = Pass | Fail(error: E)
}
