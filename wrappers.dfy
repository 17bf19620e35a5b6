/** Failure-carrying results used across the model. */
module Wrappers {

  /** A value that may be missing; the stand-in for a Python call that can raise. */
  datatype Option<+T> = None | Some(value: T)

  /** A successful value, or the error that stopped the computation. */
  datatype Result<+T, +E> = Ok(value: T) | Err(error: E)
}
