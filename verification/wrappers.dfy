/** Option and Result: a missing cell, an absent key, and an error path. */
module Wrappers {

  /** A value that may be absent: a missing (NaN / NA / None) cell or an unresolved name. */
  datatype Option<+T> = None | Some(value: T)

  /** The outcome of an operation that can raise. */
  datatype Result<+R, +E> = Success(value: R) | Failure(error: E)
}
