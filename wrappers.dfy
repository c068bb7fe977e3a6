/** Optional values and fallible results shared by every module of the model. */
module Wrappers {

  /** Python's `None` versus a present value. */
  datatype Option<+T> = None | Some(value: T)

  /** A value, or the text of the exception that replaced it. */
  datatype Result<+T> = Ok(value: T) | Err(error: string)
}
