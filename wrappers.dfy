/** Failure-carrying values used in place of the exceptions and missing attributes of the source. */
module Wrappers {

  /** A value that may be absent, such as an environment attribute that has not been set yet. */
  datatype Option<+T> = None | Some(value: T) {

    /** The value, or `default` when absent. */
    function GetOr(default: T): T {
      match this
      case Some(v) => v
      case None => default
    }
  }

  /** The outcome of an operation that either yields a value or raises an error. */
  datatype Result<+R, +E> = Success(value: R) | Failure(error: E)

  /** The outcome of an operation that yields nothing but may raise an error. */
  datatype Outcome<+E> = Pass | Fail(error: E)
}
