/** Option and Result, the failure-carrying datatypes the model uses in place
    of Go's (value, error) pairs. */
module Wrappers {

  datatype Option<+T> = None | Some(value: T)

  datatype Result<+T, +E> = Ok(value: T) | Err(error: E)
}
