/** Optional values: a JavaScript field that may be absent or falsy. */
module Wrappers {
  datatype Option<+T> = None | Some(value: T)
}
