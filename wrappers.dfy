/** Failure-carrying values shared by every module of the model: Go's `(T, error)` pairs and
    values that may be nil (`*T`) become `Result` and `Option`, a bare `error` becomes `Outcome`. */
module Wrappers {

  datatype Option<+T> = None | Some(value: T)

  datatype Result<+R, +E> = Success(value: R) | Failure(error: E)

  datatype Outcome<+E> = Pass | Fail(error: E)
}
