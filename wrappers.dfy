/** Optional values: the source's `None` results and missing entries. */
module Wrappers {
  datatype Option<+T> = None | Some(value: T)
}
