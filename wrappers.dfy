/** Option and Result: a missing value (NaN, an unbound variable, a library
    call that raised) and an operation that either succeeds or fails. */
module Wrappers {

  datatype Option<+T> = None | Some(value: T)

  datatype Result<+R, +E> = Success(value: R) | Failure(error: E)
}
