/** Optional values, used for the position history's lookup result. */
module Wrappers {

  datatype Option<+T> = None | Some(value: T)
}
