/** Failure-carrying result types shared by the other modules. */
module Wrappers {

  /** A value that may be missing (Python's `None`). */
  datatype Option<+T> = None | Some(value: T)

  /** The outcome of a call that returns nothing or raises `error`. */
  datatype Outcome<+E> = Pass | Fail(error: E)

  /** The outcome of a call that returns `value` or raises `error`. */
  datatype Result<+T, +E> = Ok(value: T) | Err(error: E)
}
