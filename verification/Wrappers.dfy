/** Optional values: Python's `None`, SQL's `NULL`. */
module Wrappers {
  datatype Option<+T> = None | Some(value: T)
}
