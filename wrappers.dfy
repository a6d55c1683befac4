/** Optional values and results, used wherever the modelled code returns
    `null`/`undefined`, throws, or returns an error value. */
module Wrappers {

  /** A value that may be absent (`null`, `undefined`, a missing row). */
  datatype Option<+T> = None | Some(value: T)

  /** The outcome of an operation that may fail with an error of type E. */
  datatype Result<+T, +E> = Success(value: T) | Failure(error: E)
}
