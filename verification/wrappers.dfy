/** Result types used in place of the thrown errors of the
    original implementation. */
module Wrappers {

  /** A value that may be absent (`undefined` in the original). */
  datatype Option<+T> = None | Some(value: T)

  /** Either a computed value or the error that aborted the computation. */
  datatype Result<+T, +E> = Success(value: T) | Failure(error: E)

  /** The outcome of a check that either passes or fails with an error. */
  datatype Outcome<+E> = Pass | Fail(error: E)
}
