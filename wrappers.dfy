/** Optional values, standing for nullable pointers and Python's None. */
module Wrappers {

  datatype Option<T> = None | Some(value: T)
}
