/** Option and Result values shared by every module of the model. */
module Wrappers {
  /** A value that may be absent (Python `None`, a Go nil, a missing key). */
  datatype Option<T> = None | Some(value: T)

  /** The outcome of an operation that can fail with an error message. */
  datatype Result<T> = Ok(value: T) | Err(error: string)
}
