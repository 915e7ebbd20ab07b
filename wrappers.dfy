/** Optional values: JavaScript's `null`/`undefined` where the source tests for them. */
module Wrappers {
  datatype Option<+T> = None | Some(value: T)
}
