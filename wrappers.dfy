/** Optional values, used for dictionary lookups and for parsers that may reject their input. */
module Wrappers {
  datatype Option<+T> = None | Some(value: T)
}
