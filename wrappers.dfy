/** Optional values, for operations that report failure instead of a result. */
module Wrappers {
  datatype Option<T> = None | Some(value: T)
}
