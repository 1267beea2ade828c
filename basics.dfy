/** Option and Result, the shapes in which the model reports absent values and error returns. */
module Basics {

  datatype Option<+T> = None | Some(value: T) {
    /** Rust `Option::unwrap_or`. */
    function GetOr(default: T): T
    {
      if Some? then value else default
    }
  }

  datatype Result<+T, +E> = Ok(value: T) | Err(error: E)
}
