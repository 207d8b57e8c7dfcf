/** Failure-carrying datatypes shared by every module of the model. */
module Wrappers {

  /** A value that may be absent: JavaScript's `null` or `undefined`. */
  datatype Option<+T> = None | Some(value: T)

  /** The value of an operation that either returns or throws/answers an error. */
  datatype Result<+T, +E> = Ok(value: T) | Err(error: E)

  /** The outcome of an operation that returns nothing on success. */
  datatype Outcome<+E> = Pass | Fail(error: E)
}
