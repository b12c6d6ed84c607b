/** Option, Result and Outcome: Java's nullable references and thrown exceptions as values. */
module Wrappers {

  /** A possibly-null reference: None stands for Java's null. */
  datatype Option<+T> = None | Some(value: T) {
    function GetOr(default: T): T {
      match this
      case Some(v) => v
      case None => default
    }
  }

  /** The value a Java method returns, or the exception it throws. */
  datatype Result<+R, +E> = Success(value: R) | Failure(error: E)

  /** Normal completion of a void Java method, or the exception it throws. */
  datatype Outcome<+E> = Pass | Fail(error: E)
}
