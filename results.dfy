/** Option and Result, used for values the source leaves as `None` and for the
    exceptions it raises. */
module Results {

  datatype Option<+T> = None | Some(value: T)

  datatype Result<+T, +E> = Success(value: T) | Failure(error: E)
}
