/** Option and Result, used for Python's `False`/`None` sentinels and for
    the error paths of the setup script. */
module Wrappers {

  datatype Option<+T> = None | Some(value: T)

  datatype Result<+T, +E> = Success(value: T) | Failure(error: E)
}
