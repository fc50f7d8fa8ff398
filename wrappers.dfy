/** A value that may be missing: Python's `None` versus a present value. */
module Wrappers {
  datatype Option<+T> = None | Some(value: T)
}
