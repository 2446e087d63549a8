/** Failure-carrying values shared by the service model and the application model. */
module Wrappers {

  /** A value that may be absent: JavaScript's `T | null` / `T | undefined`. */
  datatype Option<+T> = None | Some(value: T)

  /** The outcome of an operation that either yields a value or raises an error. */
  datatype Outcome<+T, +E> = Ok(value: T) | Err(error: E)
}
