/** Option and Result values used where the source returns null or throws. */
module Results {

  /** A value that may be absent (the source's `null`). */
  datatype Option<+T> = None | Some(value: T)

  /** The outcome of an operation that either yields a value or fails with an error (the source's exceptions). */
  datatype Result<+T, +E> = Ok(value: T) | Err(error: E)
}
