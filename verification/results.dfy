/** Failure-carrying values shared by the whole model. */
module Results {

  /** A value that may be absent: a Java `null`, or a call that threw. */
  datatype Option<+T> = None | Some(value: T)

  /** The outcome of an operation that either succeeds or fails with an error. */
  datatype Result<+T, +E> = Ok(value: T) | Err(error: E)
}
