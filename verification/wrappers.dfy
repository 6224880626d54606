/** Failure-carrying datatypes shared by the other modules. */
module Wrappers {

  /** A value that may be absent; stands for Python's `None`. */
  datatype Option<+T> = None | Some(value: T)

  /** Either a value or the exception an operation would raise instead. */
  datatype Result<+T, +E> = Success(value: T) | Failure(error: E)
}
