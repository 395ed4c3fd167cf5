/** Option and Result values for operations that can fail. */
module Wrappers {

  datatype Option<+T> = None | Some(value: T)

  datatype Result<+R, +E> = Success(value: R) | Failure(error: E)

  /** Pass or a failure value, for operations that return nothing on success. */
  datatype Outcome<+E> = Pass | Fail(error: E)
}
