/** Optional values, standing for the source's `null` and for the outcome of a
    platform call that may throw. */
module Wrappers {
  datatype Option<+T> = None | Some(value: T)
}
