/** Option and Result: a Python value that may be missing, and an operation that may raise. */
module Wrappers {

  /** A dictionary entry that may be absent. */
  datatype Option<+T> = None | Some(value: T) {

    /** Python's `d.get(key, default)`: the stored value, or `default` when the key is absent. */
    function GetOr(default: T): T {
      match this
      case Some(v) => v
      case None => default
    }
  }

  /** The outcome of an operation that either produces a value or raises with a message. */
  datatype Result<+T, +E> = Ok(value: T) | Err(error: E)
}
