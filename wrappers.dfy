/** Option and Result, the failure-carrying values used across the model. */
module Wrappers {

  /** A value that may be missing (a pandas NaN, an absent key). */
  datatype Option<+T> = None | Some(value: T)

  /** An outcome that is either a value or the error the source would raise. */
  datatype Result<+T, +E> = Ok(value: T) | Err(error: E)
}
