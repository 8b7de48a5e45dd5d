/** Optional values: a null pointer, an absent cache entry or a missing match. */
module Wrappers {
  datatype Option<T> = None | Some(value: T)
}
