/** Result and option values shared by every module of the model. */
module Wrappers {
  datatype Option<+T> = None | Some(value: T)
  {
    function UnwrapOr(default: T): T {
      if Some? then value else default
    }
  }

  /** What a Go function returning (T, error) gives back. */
  datatype Result<+T, +E> = Ok(value: T) | Err(error: E)
}
