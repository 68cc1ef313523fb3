/** Optional values, used for JavaScript's `null`/`undefined` and for failed look-ups. */
module Wrappers {
  datatype Option<+T> = None | Some(value: T)
}
