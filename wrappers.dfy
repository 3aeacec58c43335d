/** Option stands for a C# reference that may be null; Result for a value or the exception thrown instead. */
module Wrappers {
  datatype Option<+T> = None | Some(value: T)

  datatype Result<+R, +E> = Success(value: R) | Failure(error: E)
}
