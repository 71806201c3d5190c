/** Option and Result, the shapes used for the source's "maybe absent" values and raised errors. */
module Wrappers {
  datatype Option<+T> = None | Some(value: T)

  datatype Result<+T, +E> = Ok(value: T) | Err(error: E)
}
