/** Optional values: a pointer that may be null, a dialog that may not exist. */
module Wrappers {
  datatype Option<+T> = None | Some(value: T)
}
