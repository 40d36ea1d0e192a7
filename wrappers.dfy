/** Option and Result, used for the values the service's libraries may fail to
    produce and for the exceptions its handlers raise. */
module Wrappers {

  datatype Option<+T> = None | Some(value: T)

  datatype Result<+R, +E> = Success(value: R) | Failure(error: E)
}
