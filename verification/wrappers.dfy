/** Option and Result datatypes used across the model. */
module Wrappers {

  datatype Option<+T> = None | Some(value: T) {
    /** Returns the value in Some, or the default when None. */
    function GetOr(default: T): T {
      match this
      case Some(v) => v
      case None => default
    }
  }

  /** The outcome of an operation that may throw: the thrown error carries a
      short description of what failed (a variable name, a missing section). */
  datatype Result<+T> = Ok(value: T) | Err(error: string)
}
