/** Small failure-carrying datatypes shared by the configuration and database modules.
    A Go `*string` that may be nil becomes an `Option<string>`; a Go `(T, error)` pair,
    a `panic` or a `log.Fatal` becomes a `Result` or an `Outcome`. */
module Wrappers {

  datatype Option<+T> = None | Some(value: T)

  datatype Result<+R, +E> = Success(value: R) | Failure(error: E)

  datatype Outcome<+E> = Pass | Fail(error: E)
}
