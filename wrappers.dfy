/** Option and Result, the two shapes the client's optional fields and rejected promises take. */
module Wrappers {
  datatype Option<+T> = None | Some(value: T)

  datatype Result<+R, +E> = Success(value: R) | Failure(error: E)
}
