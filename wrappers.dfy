/** Option and Result values used by every rule: a rule that rejects its input
    returns `Err` with the reason instead of raising an exception. */
module Wrappers {

  datatype Option<+T> = None | Some(value: T)

  datatype Result<+R, +E> = Ok(value: R) | Err(error: E)
}
