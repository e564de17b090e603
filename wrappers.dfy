// Shared result types. The C# code reports failures by throwing; the model
// returns them instead, so every error path is an ordinary value.
module Wrappers {

  datatype Option<T> = None | Some(value: T)

  // The outcome of an operation that returns nothing on success.
  datatype Outcome<E> = Pass | Fail(error: E)

  // The outcome of an operation that returns a value on success.
  datatype Result<T, E> = Success(value: T) | Failure(error: E)
}
