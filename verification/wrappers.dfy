/** Optional values and success-or-error outcomes, the two shapes every module
    uses for JavaScript's `undefined` fields and for thrown errors. */
module Wrappers {

  /** A value that may be absent (`undefined`/`null` in the original). */
  datatype Option<+T> = None | Some(value: T) {

    /** The wrapped value, or `default` when absent. */
    function GetOr(default: T): T {
      match this
      case Some(v) => v
      case None => default
    }
  }

  /** The outcome of an operation that either returns a value or throws an
      error carrying a message. */
  datatype Result<+T, +E> = Ok(value: T) | Err(error: E)
}
