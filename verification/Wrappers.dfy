/** The absence and failure types shared by every module. */
module Wrappers {

  datatype Option<+T> = None | Some(value: T)

  /** The outcome of code that may raise ValueError. */
  datatype Result<+T> = Ok(value: T) | ValueError
}
