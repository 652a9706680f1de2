/** Optional values, and results that carry an error message, shared by
    every page model. */
module Wrappers {

  datatype Option<+T> = None | Some(value: T)

  /** The answer of a backend call: a value, or the error message the client
      would put in a toast. */
  datatype Result<+T> = Ok(value: T) | Err(message: string)
}
