/** Option and Result, used for the nullable image returned by the reader
    and for the exceptions the conversion can raise. */
module Wrappers {

  datatype Option<+T> = None | Some(value: T)

  datatype Result<+R, +E> = Success(value: R) | Failure(error: E)
}
