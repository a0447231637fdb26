/** Failure-carrying values used where the Python code returns None or raises. */
module Results {

  /** An optional value: the Python `X | None`. */
  datatype Option<+T> = None | Some(value: T)

  /** Either a value or the error the Python code would raise. */
  datatype Result<+T, +E> = Success(value: T) | Failure(error: E)
}
