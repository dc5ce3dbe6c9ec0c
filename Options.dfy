/** The optional value and the result-or-error value used throughout the model. */
module Options {
  /** A Java reference that may be null. */
  datatype Option<T> = None | Some(value: T)

  /** The outcome of an operation that may throw IllegalArgumentException. */
  datatype Result<T> = Ok(value: T) | Err(message: string)
}
