/** Optional values and results, shared by every module of the model. */
module Wrappers {

  /** A value that may be absent: a Python `None`, a missing key, a NULL column. */
  datatype Option<+T> = None | Some(value: T)

  /** An outcome that is either a value or an error. */
  datatype Result<+T, +E> = Ok(value: T) | Err(error: E)
}
