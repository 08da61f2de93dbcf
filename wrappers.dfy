/** Option / Result / Outcome datatypes shared by the builder and the verifier. */
module Wrappers {

  datatype Option<+T> = None | Some(value: T)

  /** The outcome of a run that either yields a value or stops with an error. */
  datatype Result<+R, +E> = Success(value: R) | Failure(error: E)

  /** The outcome of a check that carries no value. */
  datatype Outcome<+E> = Pass | Fail(error: E)
}
