/** Option, Result and Outcome: the model's stand-ins for PHP's null returns and exceptions. */
module Wrappers {

  datatype Option<+T> = None | Some(value: T)

  /** A value, or the exception that was thrown instead. */
  datatype Result<+T, +E> = Success(value: T) | Failure(error: E)

  /** A call with no result that either returns normally or throws. */
  datatype Outcome<+E> = Pass | Fail(error: E)
}
