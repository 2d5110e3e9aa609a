/** A value that may be missing: the source's NULL. */
module Wrappers {
  datatype Option<+T> = None | Some(value: T)
}
