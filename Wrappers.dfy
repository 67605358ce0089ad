/** Optional values, used for lookups that the original program lets fail. */
module Wrappers {
  datatype Option<+T> = None | Some(value: T)
}
