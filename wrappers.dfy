/** Optional values and results with an error, used wherever the engine returns
    a null pointer, an "empty" entity, or throws. */
module Wrappers {
  datatype Option<T> = None | Some(value: T)

  datatype Result<T, E> = Success(value: T) | Failure(error: E)
}
