/** Optional values, used for the partial inverses of the normalisers. */
module Wrappers {
  datatype Option<+T> = None | Some(value: T)
}
