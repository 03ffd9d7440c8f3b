/** Optional values and results: the model's stand-ins for Python's `None`-or-value returns
 *  and for exceptions that end a request. */
module Wrappers {

  datatype Option<+T> = None | Some(value: T)

  datatype Result<+T, +E> = Ok(value: T) | Err(error: E)

}
