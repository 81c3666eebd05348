/** Small value wrappers used by the optional container's model. */
module Wrappers {

  /** A value that may be missing: an `error` result that may be nil, a pointer that may be nil. */
  datatype Option<+T> = None | Some(value: T)

  /** The outcome of a foreign call that returns either a value or an error. */
  datatype Result<+R, +E> = Success(value: R) | Failure(error: E)
}
