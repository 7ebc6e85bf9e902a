/** Optional values, used for Go's nil-able errors, pointers and map lookups. */
module Wrappers {
  datatype Option<+T> = None | Some(value: T)
}
