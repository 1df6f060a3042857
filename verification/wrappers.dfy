/** Failure-carrying result types: PHP's `null`, exceptions and `return $this` become values. */
module Wrappers {

  /** A value or PHP's `null`. */
  datatype Option<+T> = None | Some(value: T)

  /** The value a PHP function returns, or the exception it throws. */
  datatype Result<+T, +E> = Success(value: T) | Failure(error: E)

  /** A call that either returns normally (for the fluent API: returns `$this`) or throws. */
  datatype Outcome<+E> = Pass | Fail(error: E)
}
