/** Optional values, used for nil-able pointers and for "no failure scheduled". */
module Wrappers {
  datatype Option<+T> = None | Some(value: T)
}
