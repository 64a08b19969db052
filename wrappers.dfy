/** Failure-carrying results shared by the modules of this model. */
module Wrappers {

  /** A value that may be absent (Python's `None`). */
  datatype Option<+T> = None | Some(value: T)

  /** Either a value or the exception the source raises instead. */
  datatype Result<+R, +E> = Success(value: R) | Failure(error: E)

  /** An operation with no value that either completes or raises. */
  datatype Outcome<+E> = Pass | Fail(error: E)
}
