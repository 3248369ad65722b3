/** Failure-compatible wrappers used across the model: `Option` for values that
    may be absent (`std::optional`, a search that finds nothing) and `Result`
    for operations that return either a value or an error status. */
module Wrappers {

  datatype Option<+T> = None | Some(value: T)

  datatype Result<+R, +E> = Success(value: R) | Failure(error: E)
}
