/** Option and Result, used for Go's `(value, error)` and `(value, ok)` returns and Python's `None`. */
module Wrappers {
  datatype Option<T> = None | Some(value: T)
  {
    predicate IsSome() { this.Some? }
  }

  /** A value or an error message, as Go's `(T, error)` pair where the message is `err.Error()`. */
  datatype Result<T> = Ok(value: T) | Err(error: string)
  {
    predicate IsOk() { this.Ok? }
  }

  /** A value or a typed error, for Go's `(T, error)` where callers tell the errors apart. */
  datatype Outcome<T, E> = Success(value: T) | Failure(error: E)
}
