/** Optional values and results, standing in for Go's nil pointers and
    `(value, error)` pairs. */
module Wrappers {

  /** A possibly-absent value: `None` plays the role of a nil pointer. */
  datatype Option<+T> = None | Some(value: T)

  /** Either a value or an error. */
  datatype Result<+R, +E> = Success(value: R) | Failure(error: E)
}
