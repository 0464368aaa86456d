/** Optional values, used for missing inputs and for scans that may find nothing. */
module Wrappers {
  datatype Option<+T> = None | Some(value: T)
}
