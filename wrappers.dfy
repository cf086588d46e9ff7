/** Optional values (a missing cell, NaN or NaT) and results with an error path. */
module Wrappers {

  datatype Option<T> = None | Some(value: T)

  datatype Result<T, E> = Success(value: T) | Failure(error: E)
}
