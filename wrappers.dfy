/** Outcome types standing in for Python's exceptions: an operation either
    returns normally or raises one error value. */
module Wrappers {

  datatype Option<+T> = None | Some(value: T)

  /** A value, or the exception raised instead of returning one. */
  datatype Result<+T, +E> = Ok(value: T) | Err(error: E)

  /** For operations that return nothing (Python's `return None`) but may raise. */
  datatype Outcome<+E> = Pass | Fail(error: E)
}
