/** Failure-compatible values used across the ledger model. */
module Wrappers {

  /** A value that may be missing: a form field that was not sent, a NULL column. */
  datatype Option<+T> = None | Some(value: T)

  /** The outcome of an operation that can fail with an error of type E. */
  datatype Result<+R, +E> = Success(value: R) | Failure(error: E)
}
