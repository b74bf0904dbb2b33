/** Optional values, standing in for Go's nil-able error and absent results. */
module Wrappers {
  datatype Option<+T> = None | Some(value: T)
}
