/** Optional values and results with an error, as used across the bot model. */
module Wrappers {

  /** A value that may be absent, like a JavaScript property that is `undefined` or `null`. */
  datatype Option<+T> = None | Some(value: T)

  /** The outcome of a computation that either yields a value or rejects with an error. */
  datatype Result<+T, +E> = Success(value: T) | Failure(error: E)
}
