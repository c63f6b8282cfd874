/** Optional values and outcomes of steps that may throw, shared by every module of the model. */
module Wrappers {

  /** A value that may be absent: JavaScript's `undefined` result of `find`, a `NaN` from `parseInt`, ... */
  datatype Option<+T> = None | Some(value: T)

  /** The outcome of a step that may throw: a value, or the cause of the exception. */
  datatype Result<+T, +E> = Success(value: T) | Failure(error: E)
}
