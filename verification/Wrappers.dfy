/** Results of partial operations. */
module Wrappers {

  datatype Option<+T> = None | Some(value: T)
  {
    function UnwrapOr(default: T): T {
      if None? then default else value
    }
  }

  /** A value, or one of the error values the operation reports. */
  datatype Result<+T, +E> = Ok(value: T) | Err(error: E)
}
