/** Option and result types shared by the other modules. */
module Wrappers {

  datatype Option<+T> = None | Some(value: T)

  /** The outcome of an operation that either succeeds with a value or fails with an error
      (a thrown exception or a rejected promise in the modelled program). */
  datatype Result<+R, +E> = Success(value: R) | Failure(error: E)
}
