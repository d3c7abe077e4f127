/** Failure-carrying return values: the model's stand-in for null references and thrown exceptions. */
module Wrappers {

  /** A value that may be absent: a C# or TypeScript reference that may be null or undefined. */
  datatype Option<+T> = None | Some(value: T)

  /** The result of an operation that either returns a value or throws. */
  datatype Result<+T, +E> = Ok(value: T) | Err(error: E)

  /** The result of an operation that returns nothing or throws. */
  datatype Outcome<+E> = Pass | Fail(error: E)
}
