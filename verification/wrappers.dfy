/** Failure-carrying datatypes shared by the model. */
module Wrappers {

  /** An optional value; `None` plays the part of Go's nil. */
  datatype Option<+T> = None | Some(value: T)

  /** The outcome of a call into the foreign KSUID library, which either
      yields a value or reports one of its own errors. */
  datatype Result<+R, +E> = Success(value: R) | Failure(error: E)
}
