/** Failure-compatible wrappers shared by every module of the model. */
module Wrappers {

  /** A value that may be absent (JavaScript `null`, a failed `parseInt`, a missing key). */
  datatype Option<+T> = None | Some(value: T)

  /** A computation that either succeeds or raises an error (Python exceptions). */
  datatype Result<+T, +E> = Success(value: T) | Failure(error: E)
}
