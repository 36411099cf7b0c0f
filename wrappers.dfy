/** Optional values, used for strtok's "no further token" answer. */
module Wrappers {

  datatype Option<+T> = None | Some(value: T)
}
