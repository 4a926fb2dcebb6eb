/** A value that may be missing: a nil pointer, or a result that came with an error. */
module Wrappers {
  datatype Option<+T> = None | Some(value: T)
}
