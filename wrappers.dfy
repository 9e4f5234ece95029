/** Optional values and results with an error, used for the points where the
    converter either finds nothing (no width directive) or stops (a malformed grid). */
module Wrappers {
  datatype Option<T> = None | Some(value: T)

  datatype Result<T, E> = Ok(value: T) | Err(error: E)
}
