/** Optional values and results with an error, used for the source's nullable
    values and for the errors its functions throw. */
module Wrappers {

  datatype Option<+T> = None | Some(value: T)

  datatype Result<+R, +E> = Ok(value: R) | Err(error: E)
}
