/** Optional values and results shared by the modules of this model. */
module Wrappers {

  /** A value that may be absent: JavaScript's `undefined`, Python's `None`
      or a missing request parameter. */
  datatype Option<+T> = None | Some(value: T)

  /** The outcome of an operation that can fail with an error of type `E`. */
  datatype Result<+T, +E> = Success(value: T) | Failure(error: E)
}
