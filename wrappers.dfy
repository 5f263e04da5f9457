/** Failure-compatible wrappers shared by the other modules. */
module Wrappers {

  /** A value that may be absent; `None` stands for JavaScript's `undefined` (or NaN, where noted). */
  datatype Option<+T> = None | Some(value: T)

  /** The outcome of an operation that returns a value or raises an error. */
  datatype Result<+T, +E> = Ok(value: T) | Err(error: E)
}
