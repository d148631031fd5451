/** Option and Result values shared by every module: PHP's nullable values and
    the exceptions the SDK throws are modelled with these. */
module Wrappers {

  datatype Option<+T> = None | Some(value: T)

  datatype Result<+T, +E> = Ok(value: T) | Err(error: E)
}
