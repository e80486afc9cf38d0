/** Optional values, used where the source has `null` or a missing value. */
module Wrappers {

  datatype Option<+T> = None | Some(value: T)
}
