/** Results shared by the modules: what a Go call can hand back to its caller. */
module Wrappers {

  datatype Option<+T> = None | Some(value: T)

  /** A Go call returns a value, returns an error, or panics. */
  datatype Outcome<+T> = Ok(value: T) | Error | Panic
}
