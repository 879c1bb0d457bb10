/** Optional values, and results that carry an error. */
module Wrappers {

  /** An optional value: pandas' NaN/missing becomes `None`. */
  datatype Option<+T> = None | Some(value: T)

  /** A computation that either produces a value or stops with an error. */
  datatype Result<+R, +E> = Success(value: R) | Failure(error: E)
}
