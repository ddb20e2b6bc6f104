/** Option and Result, used for values the renderer may not find and for the
    configuration errors that abort the process. */
module Wrappers {
  datatype Option<+T> = None | Some(value: T)

  datatype Result<+R, +E> = Success(value: R) | Failure(error: E)
}
