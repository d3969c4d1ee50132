/** The failures that the bar series and the indicators signal, in place of Java exceptions. */
module Failures {

  /** The exception kinds the core throws. */
  datatype Error =
    | IndexOutOfBounds      // IndexOutOfBoundsException
    | InvalidArgument       // IllegalArgumentException
    | UnsupportedOperation  // UnsupportedOperationException

  /** Either a value or the exception that replaced it. */
  datatype Result<+T> = Ok(value: T) | Err(error: Error)

  /** The outcome of a call that returns nothing when it succeeds. */
  datatype Outcome = Pass | Fail(error: Error)
}
