/** Optional values and the success-or-error results that stand in for PHP's thrown exceptions. */
module Wrappers {

  datatype Option<+T> = None | Some(value: T)

  /** A call that returns a value or throws. */
  datatype Result<+T, +E> = Success(value: T) | Failure(error: E)

  /** A call that returns nothing (PHP `void`) or throws. */
  datatype Outcome<+E> = Pass | Fail(error: E)
}
