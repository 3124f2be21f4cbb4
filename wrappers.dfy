/** The two failure-compatible shapes the model uses for C#'s nullable values and thrown exceptions. */
module Wrappers {

  /** A value that may be absent: C#'s `null`. */
  datatype Option<+T> = None | Some(value: T)

  /** An operation that either completes or throws the given error. */
  datatype Outcome<+E> = Pass | Fail(error: E)
}
