/** Failure-carrying values used throughout the model in place of .NET
    null references and exceptions. */
module Wrappers {

  /** A possibly-null reference; `None` is C#'s null. */
  datatype Option<+T> = None | Some(value: T)

  /** Either a value or the exception that aborted the computation. */
  datatype Result<+T, +E> = Success(value: T) | Failure(error: E)

  /** A computation without a value that completed or threw. */
  datatype Outcome<+E> = Pass | Fail(error: E)
}
