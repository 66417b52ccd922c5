/** Optional values and results shared by the modules of the model. */
module Wrappers {

  /** An attribute that may be absent, or an array slot that may be unset. */
  datatype Option<+T> = None | Some(value: T)

  /** The outcome of a step that may throw. */
  datatype Result<+T, +E> = Success(value: T) | Failure(error: E)
}
