/** Optional values, used where the source looks something up and may find nothing. */
module Wrappers {
  datatype Option<+T> = None | Some(value: T)
}
