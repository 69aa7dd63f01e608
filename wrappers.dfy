/** Optional values, and results that carry an error message in place of a thrown exception. */
module Wrappers {
  datatype Option<T> = None | Some(value: T)

  datatype Result<T> = Success(value: T) | Failure(error: string)
}
