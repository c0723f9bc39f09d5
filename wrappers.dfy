/** Option and Result values used across the model in place of Python's None and exceptions. */
module Wrappers {

  datatype Option<+T> = None | Some(value: T)

  /** Success carries the value a Python function returns; Failure carries the message of the exception it raises. */
  datatype Result<+T, +E> = Success(value: T) | Failure(error: E)
}
