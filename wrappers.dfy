/** Failure-carrying values shared by every module of the model. */
module Wrappers {

  /** An optional value: JavaScript's `undefined`/`null`, Java's empty Optional or SQL NULL. */
  datatype Option<+T> = None | Some(value: T)

  /** A value or an error: a thrown exception, an error response or a failed store statement. */
  datatype Result<+T, +E> = Ok(value: T) | Err(error: E)

  /** Success without a value, or an error: a `void` Java method that may throw. */
  datatype Outcome<+E> = Pass | Fail(error: E)
}
