/** Failure-compatible wrappers used for the source's exceptions and nullable values. */
module Wrappers {

  datatype Option<+T> = None | Some(value: T)

  /** A value, or the error the source would have thrown instead of returning. */
  datatype Result<+R, +E> = Ok(value: R) | Err(error: E)

  /** A check that either passes or throws. */
  datatype Outcome<+E> = Pass | Fail(error: E)
}
