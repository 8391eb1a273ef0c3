/** Optional values and results with an error, used for the request parameters
    that may be absent and for the handlers that answer with an error. */
module Wrappers {
  datatype Option<+T> = None | Some(value: T)

  datatype Result<+R, +E> = Success(value: R) | Failure(error: E)
}
