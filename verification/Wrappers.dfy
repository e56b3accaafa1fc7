/** Failure-compatible wrappers shared by the model. */
module Wrappers {

  datatype Option<+T> = None | Some(value: T)

  /** The program's `Result`: a value, or the error the command reports. */
  datatype Result<+T, +E> = Success(value: T) | Failure(error: E)
}
