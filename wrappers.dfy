/** Optional values, used where the source returns a null pointer or
    leaves a variable unset, and results of calls that may throw. */
module Wrappers {
  datatype Option<+T> = None | Some(value: T)

  datatype Result<+T, +E> = Success(value: T) | Failure(error: E)
}
