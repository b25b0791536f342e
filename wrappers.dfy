/** Optional values, for the places where the source accepts a null pointer. */
module Wrappers {

  datatype Option<T> = None | Some(value: T)
}
