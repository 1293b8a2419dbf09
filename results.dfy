/** A value or the error that replaced it, for operations whose Python
    counterpart either returns or raises. */
module Results {

  datatype Result<+T, +E> = Success(value: T) | Failure(error: E)


  /** A value that may be absent. */
  datatype Option<+T> = None | Some(value: T)
}
