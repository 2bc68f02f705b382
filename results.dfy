/** Failure-carrying wrappers shared by the whole model. */
module Results {

  /** An optional value: `None` is a Java null where the source uses one as "absent". */
  datatype Option<+T> = None | Some(value: T)

  /** The outcome of an operation that can throw: `Err` carries the exception's message. */
  datatype Result<+T, +E> = Ok(value: T) | Err(error: E)
}
