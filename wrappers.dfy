/** Option, Result and Outcome: the Go idiom of returning `(value, error)` or a bare `error`. */
module Wrappers {

  datatype Option<+T> = None | Some(value: T)

  /** A Go `(T, error)` pair: exactly one of the two is meaningful. */
  datatype Result<+T, +E> = Ok(value: T) | Err(error: E) {
    predicate IsFailure() { Err? }
    function PropagateFailure<U>(): Result<U, E> requires Err? { Err(error) }
    function Extract(): T requires Ok? { value }
  }

  /** A bare Go `error` return: nil (Pass) or an error value. */
  datatype Outcome<+E> = Pass | Fail(error: E)
}
