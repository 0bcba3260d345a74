/** Option and Result, the two shapes the engine's outcomes take: a match that may be
    absent (Go's nil `*Entity`) and a batch call that may fail on a caller error. */
module Wrappers {

  datatype Option<+T> = None | Some(value: T)

  datatype Result<+R, +E> = Success(value: R) | Failure(error: E)
}
