/** Failure-carrying result types shared by the other modules. */
module Wrappers {

  /** A value that may be absent (JavaScript's `undefined` / `null` result). */
  datatype Option<+T> = None | Some(value: T)

  /** The outcome of a resolver that may throw: a value, or the error it throws. */
  datatype Result<+T, +E> = Ok(value: T) | Err(error: E)
}
