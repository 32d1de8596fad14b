/** Failure-carrying values shared by every module of the model. */
module Wrappers {

  /** A value that may be absent (Python's None, JavaScript's null/undefined). */
  datatype Option<+T> = None | Some(value: T)

  /** The outcome of an operation that raises in the source. */
  datatype Result<+T, +E> = Ok(value: T) | Err(error: E)
}
