/** Optional values, for the parts of a request or a decoded JSON payload that may be absent. */
module Wrappers {

  datatype Option<+T> = None | Some(value: T)
}
