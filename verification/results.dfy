/** Optional values and success-or-error results used throughout the model. */
module Results {

  /** A value that may be absent, e.g. a field that does not fit its width. */
  datatype Option<+T> = None | Some(value: T)

  /** The outcome of an operation that either succeeds with a value or raises an error. */
  datatype Result<+T, +E> = Ok(value: T) | Err(error: E)
}
