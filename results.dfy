/** Optional values and error-carrying results shared by the tunc modules. */
module Results {

  /** A value that may be absent, as Go's nil error or a missing entry. */
  datatype Option<+T> = None | Some(value: T)

  /** Either a value or the error that prevented computing it. */
  datatype Result<+T, +E> = Success(value: T) | Failure(error: E)
}
