/** Optional values and results, used across the model. */
module Wrappers {

  /** An optional value: `None` stands for a missing, empty or unparsable cell. */
  datatype Option<+T> = None | Some(value: T)

  /** The outcome of an operation that may raise. */
  datatype Result<+R, +E> = Ok(value: R) | Err(error: E)
}
