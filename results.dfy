/** Optional values and the success-or-error result of a request handler. */
module Results {

  /** A value that may be absent (JavaScript `undefined`). */
  datatype Option<+T> = None | Some(value: T)

  /** The outcome of a handler: a response value or the error it throws. */
  datatype Result<+T, +E> = Ok(value: T) | Err(error: E)
}
