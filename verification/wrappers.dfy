/** Failure-carrying return values: Go's `(value, error)` pairs and nil-or-error
    returns become `Result` and `Outcome`; `Option` stands for a value that
    may be absent. */
module Wrappers {

  datatype Option<+T> = None | Some(value: T)

  /** A value, or the error the Go function returned instead. */
  datatype Result<+R, +E> = Success(value: R) | Failure(error: E)

  /** A Go `error` return that carries no value: `nil` is `Pass`. */
  datatype Outcome<+E> = Pass | Fail(error: E)
}
