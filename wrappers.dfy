/** Option and Result, the two wrappers the rest of the model uses for
    JavaScript's nullable values and for operations that may throw. */
module Wrappers {

  datatype Option<+T> = None | Some(value: T)

  datatype Result<+R, +E> = Success(value: R) | Failure(error: E)
}
