/** The "value or nothing" result shared by the cache lookup and the stored favorites. */
module Wrappers {
  datatype Option<+T> = None | Some(value: T)
}
