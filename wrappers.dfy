/** Option and Result, as the auction state uses them (`null` fields, rejected commands). */
module Wrappers {

  /** A JavaScript value that may be `null` or absent. */
  datatype Option<+T> = None | Some(value: T) {

    /** The value, or `default` when absent (JavaScript `x ?? default`). */
    function GetOr(default: T): T {
      match this
      case Some(v) => v
      case None => default
    }
  }

  /** The outcome of a check that either yields a value or names why it refused. */
  datatype Result<+T, +E> = Success(value: T) | Failure(error: E)
}
