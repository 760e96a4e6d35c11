/** Option and Result datatypes shared by the output-cache model. */
module Wrappers {

  /** A value that may be absent: a null reference or a missing header. */
  datatype Option<+T> = None | Some(value: T)

  /** The outcome of an operation that may throw: a value or the exception it raises. */
  datatype Result<+R, +E> = Success(value: R) | Failure(error: E)
}
