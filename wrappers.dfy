/** Failure-carrying result types shared by every module of the model. */
module Wrappers {

  /** std::optional, or a lookup that may find nothing. */
  datatype Option<+T> = None | Some(value: T)

  /** A computation that either yields a value or stops with an error
      (a thrown exception, an `exit(1)` or a failed `assert` in the source). */
  datatype Result<+T, +E> = Ok(value: T) | Err(error: E)
}
