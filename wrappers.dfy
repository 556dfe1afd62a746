/** Result and Option values standing in for the exceptions and nulls of the parser. */
module Wrappers {

  datatype Option<+T> = None | Some(value: T)

  /** Either a value or the error that the source signals by throwing. */
  datatype Result<+T, +E> = Ok(value: T) | Err(error: E)
}
