/** Failure-carrying values used across the model. */
module Wrappers {

  /** A value that may be absent: a Go error that may be nil, a document that may be missing. */
  datatype Option<+T> = None | Some(value: T)

  /** The outcome of a store read: a value, or the error the driver reported. */
  datatype Result<+R, +E> = Success(value: R) | Failure(error: E)
}
