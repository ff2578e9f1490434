/** Java's nullable references and thrown exceptions, as values.
    - Option<T>: a nullable reference (None is `null`).
    - Result<T, E>: a call that either returns a T or throws an E.
 */
module Wrappers {

  /** A nullable reference: None stands for Java's `null`. */
  datatype Option<+T> = None | Some(value: T) {

    /** The value, or `default` when it is null. */
    function GetOr(default: T): T {
      match this
      case Some(v) => v
      case None => default
    }
  }

  /** The outcome of a call that may throw. */
  datatype Result<+T, +E> = Success(value: T) | Failure(error: E) {

    predicate IsFailure() {
      Failure?
    }
  }
}
