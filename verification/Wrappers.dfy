/** A value that may be missing: Go's (value, found) pairs and nil pointers. */
module Wrappers {
  datatype Option<+T> = None | Some(value: T)
}
