/** Option and Result: absent values and errors carried as data. */
module Wrappers {

  datatype Option<+T> = None | Some(value: T)

  /** The outcome of a call that either produces a value or raises with a message. */
  datatype Result<+R, +E> = Success(value: R) | Failure(error: E)
}
