/** Option, Result and Outcome in the shape the rest of the model needs them. */
module Wrappers {

  /** A value that may be missing; `None` stands for pandas' NaN. */
  datatype Option<+T> = None | Some(value: T) {
    /** `fillna(default)` on a single value. */
    function GetOr(default: T): T {
      match this
      case Some(v) => v
      case None => default
    }
  }

  /** The result of an operation that may raise. */
  datatype Result<+T, +E> = Ok(value: T) | Err(error: E)

  /** The result of a check that either passes or raises. */
  datatype Outcome<+E> = Pass | Fail(error: E)
}
