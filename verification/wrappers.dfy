/** Option and Result: C#'s nullable references and thrown exceptions, as values. */
module Wrappers {

  /** A value that may be null (`None`). */
  datatype Option<+T> = None | Some(value: T) {
    /** C#'s `x ?? fallback`. */
    function GetOr(fallback: T): T {
      match this
      case Some(v) => v
      case None => fallback
    }
  }

  /** The outcome of an operation that either returns a value or throws. */
  datatype Result<+T, +E> = Ok(value: T) | Err(error: E)
}
