/** Optional values and success/failure outcomes, as used by the policy listing model. */
module Wrappers {

  /** A value that may be absent (Python's `None` / a missing dictionary key). */
  datatype Option<+T> = None | Some(value: T)

  /** The outcome of an operation that either produces a value or fails with an error. */
  datatype Result<+R, +E> = Success(value: R) | Failure(error: E)
}
