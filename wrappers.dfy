/** Failure-carrying values: the exceptions the aligner driver raises become `Failure`/`Fail`. */
module Wrappers {

  /** A Python argument that may be `None`. */
  datatype Option<+T> = None | Some(value: T)

  /** A computation that produces a value or stops with an error. */
  datatype Result<+R, +E> = Success(value: R) | Failure(error: E)

  /** A computation run for its effect only: it completes or stops with an error. */
  datatype Outcome<+E> = Pass | Fail(error: E)
}
