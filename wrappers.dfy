/** Results of operations that can fail in the crawler: a Python exception
    or a `None` return becomes `None` or `Failure`. */
module Wrappers {
  datatype Option<T> = None | Some(value: T)

  datatype Result<T, E> = Success(value: T) | Failure(error: E)
}
