/** Optional values and results with an error, for the places where the agent
    reads a key that may be missing or raises an exception. */
module Results {

  datatype Option<+T> = None | Some(value: T)

  datatype Result<+T, +E> = Success(value: T) | Failure(error: E)
}
