/** Absent values and failures.

    `Option` stands for the Ruby lookups that answer `false` when nothing
    matches; `Result` stands for an operation that either returns a value or
    raises one of the errors of module `Errors`. */
module Wrappers {

  datatype Option<+T> = None | Some(value: T)

  datatype Result<+T, +E> = Success(value: T) | Failure(error: E)
}
