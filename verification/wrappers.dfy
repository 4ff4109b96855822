/** Option and outcome wrappers shared by the modules of this model. */
module Wrappers {

  /** A value that may be absent (Python's `None`). */
  datatype Option<+T> = None | Some(value: T)

  /** The outcome of a check that carries no value: it passes or fails with an error. */
  datatype Outcome<+E> = Pass | Fail(error: E)
}
