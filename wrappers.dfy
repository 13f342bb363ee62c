/** Optional values: a file or folder a picker may not return, a directory a lookup may not find. */
module Wrappers {
  datatype Option<+T> = None | Some(value: T)
}
