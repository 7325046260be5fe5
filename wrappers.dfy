/** Failure-carrying values shared by the three programs. */
module Wrappers {

  /** The outcome of a step that may be absent (a line that does not parse, a
      value that was never printed). */
  datatype Option<+T> = None | Some(value: T)

  /** A Rust `Result<T, Box<dyn Error>>`: the error's message is not modelled. */
  datatype Result<+T> = Ok(value: T) | Err
}
