/** Option and Result values shared by every module of the model. */
module Wrappers {

  datatype Option<T> = None | Some(value: T)

  /** The outcome of an operation that either returns a value or throws an error message. */
  datatype Result<T, E> = Success(value: T) | Failure(error: E)
}
