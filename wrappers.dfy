/** Option and Result, the outcomes of the operations that can fail. */
module Wrappers {

  datatype Option<+T> = None | Some(value: T)

  /** A Go `(value, error)` pair: exactly one of the two is meaningful. */
  datatype Result<+R, +E> = Success(value: R) | Failure(error: E)
}
