/** The outcome of a computation that may fail. */
module Results {

  datatype Result<T, E> = Ok(value: T) | Err(error: E)
}
