/** Failure-carrying values shared by the engine. */
module Wrappers {

  datatype Option<+T> = None | Some(value: T)

  /** The verdict of an operation that either succeeds or fails with an error `E`. */
  datatype Outcome<+E> = Pass | Fail(error: E)

  datatype Result<+T, +E> = Ok(value: T) | Err(error: E)
}
