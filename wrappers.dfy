/** Optional values and failable results, standing in for Python's `None` and raised exceptions. */
module Wrappers {

  datatype Option<+T> = None | Some(value: T)

  /** The outcome of a step that may raise: `Err` carries `str(e)` of the exception. */
  datatype Result<+T> = Ok(value: T) | Err(error: string)
}
