/** Optional values and results: JavaScript's `undefined` returns and the
    HTTP handler's error responses. */
module Wrappers {

  datatype Option<+T> = None | Some(value: T)

  datatype Result<+T, +E> = Success(value: T) | Failure(error: E)
}
