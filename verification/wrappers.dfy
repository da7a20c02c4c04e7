/** Option and Result values for the error paths of the mask service and the export actions. */
module Wrappers {

  /** A value that may be missing, as a nullable reference or an optional return is. */
  datatype Option<+T> = None | Some(value: T)

  /** The outcome of an operation that either produces a value or fails with an error. */
  datatype Result<+T, +E> = Ok(value: T) | Err(error: E)
}
