/** Optional values, used where the firmware returns NULL or has no answer. */
module Wrappers {
  datatype Option<+T> = None | Some(value: T)
}
