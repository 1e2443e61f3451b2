/** Optional values and call results, the shapes the task manager's remote
    calls hand back (`null` or a value; `{ data, error }`). */
module Wrappers {

  /** A value that may be absent: JavaScript's `null` or a value. */
  datatype Option<+T> = None | Some(value: T)

  /** The outcome of a remote call: its data, or the error it reported. */
  datatype Result<+T, +E> = Success(value: T) | Failure(error: E)
}
