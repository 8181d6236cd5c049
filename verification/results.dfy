/** Optional values and results with an error message, standing in for Go's
    `(value, ok)` and `(value, error)` return pairs. */
module Results {

  datatype Option<+T> = None | Some(value: T)

  /** `Err` carries the text of the Go `error` the operation returns. */
  datatype Result<+T> = Ok(value: T) | Err(error: string)
}
