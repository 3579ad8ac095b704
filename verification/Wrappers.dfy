/** Results that may be missing or refused, used by every other module. */
module Wrappers {

  datatype Option<+T> = None | Some(value: T) {
    function UnwrapOr(default: T): T {
      if Some? then value else default
    }
  }

  /** The Python code raises; the model returns `Err` with the error's code. */
  datatype Result<+T, +E> = Ok(value: T) | Err(error: E)
}
