/** Optional values, for the places where the services answer Python's `None`. */
module Wrappers {

  datatype Option<+T> = None | Some(value: T)
}
