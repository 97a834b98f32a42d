/** Optional values: a JSON field that may be absent, a request that may not be sent. */
module Wrappers {
  datatype Option<+T> = None | Some(value: T)
}
