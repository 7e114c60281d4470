/** Failure-carrying results shared by the artifact fetcher and the retry model. */
module Wrappers {

  datatype Option<+T> = None | Some(value: T)

  /** A Go `(value, error)` pair in which exactly one side is meaningful. */
  datatype Result<+R, +E> = Success(value: R) | Failure(error: E)
}
