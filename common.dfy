/** Failure-carrying wrappers shared by every module of the model. */
module Common {

  /** A value that may be absent: Python's `None` for a missing key or setting. */
  datatype Option<+T> = None | Some(value: T)

  /** A call that either answers or raises; `error` is the exception's text. */
  datatype Result<+T> = Ok(value: T) | Err(error: string)
}
