/** Failure-compatible wrappers used for Java's null references and thrown exceptions. */
module Wrappers {

  /** A possibly null reference. */
  datatype Option<+T> = None | Some(value: T) {

    /** The referenced value, or `default` for null. */
    function GetOr(default: T): T
    {
      match this
      case Some(v) => v
      case None => default
    }
  }

  /** Either a normal return value or the exception that ended the call. */
  datatype Result<+T, +E> = Success(value: T) | Failure(error: E) {

    predicate IsFailure()
    {
      Failure?
    }

    function PropagateFailure<U>(): Result<U, E>
      requires Failure?
    {
      Failure(error)
    }

    function Extract(): T
      requires Success?
    {
      value
    }
  }
}
