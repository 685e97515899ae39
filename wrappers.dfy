/** Option and Result, the two wrappers the model uses for "may be absent"
    and "may fail". */
module Wrappers {

  datatype Option<+T> = None | Some(value: T)

  datatype Result<+R, +E> = Success(value: R) | Failure(error: E)
}
