/** Optional values and results, shared by every module of the model. */
module Wrappers {

  /** A value that may be missing: an absent JSON attribute, an empty lookup. */
  datatype Option<+T> = None | Some(value: T)

  /** The value of a call that either returns or throws. */
  datatype Result<+T, +E> = Ok(value: T) | Err(error: E)
}
