/** Option and Result: the two failure-carrying shapes the model needs. */
module Wrappers {

  /** A value that may be absent, e.g. a home directory that cannot be resolved. */
  datatype Option<+T> = None | Some(value: T)

  /** The Go convention `(value, error)` with exactly one of the two present. */
  datatype Result<+T, +E> = Success(value: T) | Failure(error: E)
}
