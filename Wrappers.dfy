/** Failure-carrying return values shared by every module of the model. */
module Wrappers {

  /** A value that may be absent: a nil result, a missing key, an absent JSON member. */
  datatype Option<+T> = None | Some(value: T)

  /** The outcome of an operation that reports failure instead of throwing. */
  datatype Result<+T, +E> = Ok(value: T) | Err(error: E)
}
