/** Result types shared by the modules: absence for Python's `None` and for
    readings that are not finite numbers, failure for a raised exception. */
module Wrappers {
  type pos = n: nat | n > 0 witness 1

  datatype Option<+T> = None | Some(value: T)

  datatype Result<+T, +E> = Ok(value: T) | Err(error: E)
}
