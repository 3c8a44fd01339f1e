/** Optional values and results with an error, as Go's `(T, error)` pairs and nil values. */
module Wrappers {
  datatype Option<+T> = None | Some(value: T)

  datatype Result<+T, +E> = Success(value: T) | Failure(error: E)
}
