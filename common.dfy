/** Small value wrappers shared by every module of the model. */
module Common {

  /** A value that may be absent: an `undefined` query parameter, a `NaN` from `parseInt`. */
  datatype Option<+T> = None | Some(value: T)

  /** The outcome of a computation that may throw. */
  datatype Result<+T, +E> = Ok(value: T) | Err(error: E)
}
