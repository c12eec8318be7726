/** Option and Result values used for the script's error paths. */
module Results {

  /** An optional value: None stands for the raised exception of a computation
      that has no other error information. */
  datatype Option<+T> = None | Some(value: T)

  /** The outcome of a computation that either produces a value or raises. */
  datatype Result<+T, +E> = Success(value: T) | Failure(error: E)
}
