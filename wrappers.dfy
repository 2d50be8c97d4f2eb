/** Optional values: a transport error, a missing separator, a cancel signal that never comes. */
module Wrappers {

  datatype Option<+T> = None | Some(value: T)
}
