/** Failure-carrying values shared by every module of the model.
    Go returns `(value, error)` pairs or a bare `error`; a nil error is `Ok`/`Pass`. */
module Wrappers {

  datatype Option<+T> = None | Some(value: T)

  /** A value together with a possible error: Go's `(*T, error)` return. */
  datatype Result<+T, +E> = Ok(value: T) | Err(error: E)

  /** A bare Go `error` return: `Pass` is nil, `Fail` carries the error. */
  datatype Outcome<+E> = Pass | Fail(error: E)
}
