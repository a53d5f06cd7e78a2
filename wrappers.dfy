/** Optional values, the Dafny counterpart of Swift's `T?`. */
module Wrappers {
  datatype Option<+T> = None | Some(value: T)
}
