/** Optional values and fallible results used throughout the ledger model. */
module Wrappers {

  /** A value that may be absent; stands in for a Go pointer that may be nil. */
  datatype Option<T> = None | Some(value: T)

  /** The outcome of an operation that can fail with an error of type E. */
  datatype Result<T, E> = Success(value: T) | Failure(error: E)
}
