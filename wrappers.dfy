/** Failure-carrying wrappers shared by the whole model. */
module Wrappers {

  /** A value that may be absent (Python's `None`). */
  datatype Option<+T> = None | Some(value: T)

  /** The result of an operation that either produces a value or raises. */
  datatype Result<+T, +E> = Ok(value: T) | Err(error: E)

  /** The result of a check that produces nothing but may fail. */
  datatype Outcome<+E> = Pass | Fail(error: E)
}
