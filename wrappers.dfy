/** Optional values and results, as the store and the pages use them. */
module Wrappers {

  /** A value that may be absent: a missing storage entry, a nullable field. */
  datatype Option<+T> = None | Some(value: T) {

    /** The value, or `default` when there is none (the `x ? x : default` idiom). */
    function GetOr(default: T): T {
      match this
      case Some(v) => v
      case None => default
    }
  }

  /** The outcome of an operation that may throw. */
  datatype Result<+T, +E> = Ok(value: T) | Err(error: E)
}
