/** Optional values and error-or-value results used throughout the bid engine. */
module Wrappers {

  /** A value that may be absent; stands for a nullable column or argument. */
  datatype Option<+T> = None | Some(value: T) {

    /** The wrapped value, or `default` when absent. */
    function GetOr(default: T): T {
      if Some? then value else default
    }
  }

  /** Either a computed value or the error that was raised instead. */
  datatype Result<+R, +E> = Success(value: R) | Failure(error: E)

  /** A check that either passes or fails with an error and carries no value. */
  datatype Outcome<+E> = Pass | Fail(error: E)
}
