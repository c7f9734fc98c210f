/** Optional values and bytes. */
module Wrappers {
  datatype Option<T> = None | Some(value: T)

  newtype byte = x: int | 0 <= x < 256
}
