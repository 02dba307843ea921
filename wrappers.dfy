/** Optional values and fail-fast results shared by the whole model. */
module Wrappers {

  /** A value that may be absent: Python's `None` or an unset attribute. */
  datatype Option<+T> = None | Some(value: T)

  /** The outcome of a step that either produces a value or aborts the run. */
  datatype Result<+T, +E> = Success(value: T) | Failure(error: E)
}
