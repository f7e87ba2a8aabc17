/** Failure-compatible wrappers used across the model: a Java `null` becomes `None`,
    a thrown exception becomes `Failure`/`Fail`. */
module Wrappers {
  datatype Option<+T> = None | Some(value: T)

  datatype Result<+T, +E> = Success(value: T) | Failure(error: E)

  datatype Outcome<+E> = Pass | Fail(error: E)
}
