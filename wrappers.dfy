/** Optional values and results, for the `undefined` / `null` and error paths of the front end. */
module Wrappers {

  datatype Option<+T> = None | Some(value: T)

  datatype Result<+R, +E> = Ok(value: R) | Err(error: E)
}
