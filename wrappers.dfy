/** Optional values: JavaScript's `null` / `undefined` made explicit. */
module Wrappers {
  datatype Option<+T> = None | Some(value: T)
}
