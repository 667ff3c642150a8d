/** Optional values and results, as the application's nullable fields and thrown errors. */
module Wrappers {

  /** A nullable or optional value (`T | null | undefined`). */
  datatype Option<T> = None | Some(value: T) {

    /** The value, or `default` when absent (the `x || default` idiom on a non-falsy x). */
    function GetOr(default: T): T {
      match this
      case Some(v) => v
      case None => default
    }
  }

  /** The outcome of a computation that either yields a value or throws. */
  datatype Result<T, E> = Ok(value: T) | Err(error: E)
}
