/** Optional values and results, as the rest of the model uses them. */
module Wrappers {

  /** A value that may be absent. Where a JavaScript property is modelled,
      None stands for `undefined` (or `null`). */
  datatype Option<+T> = None | Some(value: T)

  /** The outcome of an operation that can fail with an error value. */
  datatype Result<+T, +E> = Success(value: T) | Failure(error: E)
}
