/** Result and option types shared by the models. */
module Wrappers {

  datatype Option<+T> = None | Some(value: T)

  /** A call that returns, or throws without a value. */
  datatype Result<+T, +E> = Ok(value: T) | Err(error: E)
}
