/** Option and Result, the two failure-compatible wrappers the model uses. */
module Wrappers {

  /** A value that may be missing: a JSON field that is absent or null, a storage key never set. */
  datatype Option<+T> = None | Some(value: T)

  /** The outcome of a call that either returns a value or throws an error carrying a message. */
  datatype Result<+R, +E> = Success(value: R) | Failure(error: E)
}
