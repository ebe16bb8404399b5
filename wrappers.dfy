/** Option and Result, the two failure-carrying shapes the model uses for
    values the source wraps in `Option` and for operations that abort. */
module Wrappers {
  datatype Option<+T> = None | Some(value: T)

  datatype Result<+R, +E> = Success(value: R) | Failure(error: E)
}
