/** Optional values and results with an error, used wherever the calculator's
    JavaScript yields `undefined`, `NaN` or throws. */
module Wrappers {

  datatype Option<+T> = None | Some(value: T)

  datatype Result<+T, +E> = Ok(value: T) | Err(error: E)
}
