/** Option and Result, the shapes of stout's `Option<T>` and `Try<T>`. */
module Wrappers {
  datatype Option<T> = None | Some(value: T)

  datatype Result<T, E> = Ok(value: T) | Err(error: E)
}
