/** Option and Result, used for Python's None and for raised ValueErrors. */
module Wrappers {

  datatype Option<+T> = None | Some(value: T)

  /** `Ok(v)` is a returned value; `Err(msg)` is a raised ValueError carrying `msg`. */
  datatype Result<+T> = Ok(value: T) | Err(error: string)
}
