/** Optional values and outcomes with an error message. */
module Wrappers {

  /** A value that may be absent: TypeScript's `T | undefined` (or `T | null`). */
  datatype Option<+T> = None | Some(value: T)

  /** A computation that either yields a value or reports an error message. */
  datatype Result<+T, +E> = Success(value: T) | Failure(error: E)
}
