/** Failure-carrying values shared by the whole model. */
module Outcomes {

  datatype Option<+T> = None | Some(value: T)

  /** A computation that either yields a value or stops with an error
      (in the program, an uncaught Python exception). */
  datatype Result<+T, +E> = Ok(value: T) | Err(error: E)
}
