/** Failure-carrying result types shared by the rest of the model. */
module Wrappers {

  /** An optional value: the flag layer's answer to "does this text read as a value?" */
  datatype Option<+T> = None | Some(value: T)

  /** The outcome of a step that produces nothing but may fail with an error. */
  datatype Outcome<+E> = Pass | Fail(error: E)

  /** A value or an error. */
  datatype Result<+R, +E> = Success(value: R) | Failure(error: E)
}
