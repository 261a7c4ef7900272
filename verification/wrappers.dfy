/** Wrappers used across the model: `Option` stands for a
    pandas cell that may be missing (NaN), `Result` for an operation that
    may raise. */
module Wrappers {

  /** A value that may be missing; `None` plays the role of pandas' NaN. */
  datatype Option<+T> = None | Some(value: T) {

    /** The value, or `default` when missing (pandas `fillna`). */
    function GetOr(default: T): T
    {
      match this
      case Some(v) => v
      case None => default
    }
  }

  /** The outcome of a call that either returns a value or raises. */
  datatype Result<+R, +E> = Success(value: R) | Failure(error: E)
}
