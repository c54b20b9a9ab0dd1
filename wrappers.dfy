/** Optional values (JavaScript `null` versus a string) and the outcome of a call that may throw. */
module Wrappers {

  /** `None` stands for JavaScript's `null`. */
  datatype Option<+T> = None | Some(value: T)

  /** `Failure(e)` stands for a call that threw `e` instead of returning. */
  datatype Result<+T, +E> = Success(value: T) | Failure(error: E)
}
