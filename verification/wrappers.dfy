/** Failure-carrying result types used where the original returns
    `Option` or `Result`. */
module Wrappers {

  /** Rust's `Option<T>`. */
  datatype Option<+T> = None | Some(value: T)

  /** Rust's `Result<T, E>`. */
  datatype Result<+T, +E> = Success(value: T) | Failure(error: E)

  /** The outcome of a check that returns no value (`Result<(), E>`). */
  datatype Outcome<+E> = Pass | Fail(error: E)
}
