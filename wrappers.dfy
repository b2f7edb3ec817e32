/** Option, Result and Outcome: JavaScript's null/undefined, and thrown exceptions, as values. */
module Wrappers {

  /** `None` stands for a JavaScript `null` or `undefined`. */
  datatype Option<+T> = None | Some(value: T) {
    function GetOr(default: T): T {
      match this
      case Some(v) => v
      case None => default
    }
  }

  /** A computation that returns a value or throws an error. */
  datatype Result<+T, +E> = Success(value: T) | Failure(error: E)

  /** A computation that returns nothing or throws an error. */
  datatype Outcome<+E> = Pass | Fail(error: E)
}
