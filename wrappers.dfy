/** Option, Result and Outcome: the model's stand-ins for Java's null / Optional
    and for exceptions thrown out of a service call. */
module Wrappers {

  datatype Option<+T> = None | Some(value: T)

  /** The value a call returns, or the exception it throws. */
  datatype Result<+T, +E> = Success(value: T) | Failure(error: E)

  /** For `void` calls: completes normally, or throws. */
  datatype Outcome<+E> = Pass | Fail(error: E)
}
