/** Optional values and results with an error, used across the components. */
module Wrappers {

  /** A value that may be missing: `null`, an absent storage key, an omitted property. */
  datatype Option<+T> = None | Some(value: T)

  /** A value or the error thrown instead of it. */
  datatype Result<+T, +E> = Ok(value: T) | Err(error: E)
}
