/** Option and Result, the failure-carrying datatypes the rest of the model uses, and `min`. */
module Wrappers {

  datatype Option<+T> = None | Some(value: T)

  /** A computation that either produces a value or raises an error. */
  datatype Result<+R, +E> = Success(value: R) | Failure(error: E)

  /** Python's `min` of two integers. */
  function Min(a: int, b: int): int {
    if a <= b then a else b
  }
}
