/** Option and Result, shared by every module of the model. */
module Wrappers {

  /** A value, or JavaScript's `null`. */
  datatype Option<T> = None | Some(value: T)

  /** The outcome of a call that either answers or throws. */
  datatype Result<T, E> = Success(value: T) | Failure(error: E)
}
