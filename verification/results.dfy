/** Outcome of an operation that, in the source, can raise instead of returning. */
module Results {

  datatype Option<+T> = None | Some(value: T)

  /** `Err` carries the message of the exception that propagated. */
  datatype Result<+T> = Ok(value: T) | Err(error: string)
}
