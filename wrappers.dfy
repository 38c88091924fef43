/** Option and Result, used where the scripts either have no value or stop
    with a fatal error (an uncaught Python exception or `grass.fatal`). */
module Wrappers {

  datatype Option<+T> = None | Some(value: T)

  datatype Result<+T, +E> = Ok(value: T) | Err(error: E)
}
