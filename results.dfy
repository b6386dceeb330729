/** Failure-carrying results shared by every module of the model. */
module Results {

  datatype Option<+T> = None | Some(value: T)

  /** Ok carries the value an operation produced; Err the exception the program would raise. */
  datatype Result<+T, +E> = Ok(value: T) | Err(error: E)
}
