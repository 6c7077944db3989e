/** Failure-carrying values shared by the scraper and presentation models. */
module Results {

  /** A value that may be absent (`null`/`undefined` in the source). */
  datatype Option<+T> = None | Some(value: T)

  /** The outcome of an operation that may throw: its value, or the error it surfaces. */
  datatype Result<+T, +E> = Ok(value: T) | Err(error: E)
}
