/** Failure-carrying return values, standing in for the exceptions the script raises. */
module Results {

  /** Either a value or the error that stopped the computation. */
  datatype Result<+T, +E> = Success(value: T) | Failure(error: E)

  /** An optional value. */
  datatype Option<+T> = None | Some(value: T)
}
