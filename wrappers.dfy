/** Option and Result: JavaScript's `undefined`/`null` and thrown errors, as values. */
module Wrappers {

  /** A value that may be missing (`undefined` or `null` in JavaScript). */
  datatype Option<+T> = None | Some(value: T)

  /** The outcome of a step that may throw: `Failure` carries the error's message or issues. */
  datatype Result<+R, +E> = Success(value: R) | Failure(error: E)
}
