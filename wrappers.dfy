/** Optional values and results with an error, as the search endpoints use them. */
module Wrappers {

  /** A value that may be absent: an omitted query parameter. */
  datatype Option<+T> = None | Some(value: T)

  /** The outcome of a store operation: a value, or the error the endpoint reports. */
  datatype Result<+T, +E> = Ok(value: T) | Err(error: E)
}
