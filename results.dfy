/** Go's `(value, error)` returns, with the error carried as its `Error()` text. */
module Results {

  datatype Result<+T> = Ok(value: T) | Err(error: string)
}
