/** Optional values: `None` stands for a Go call that did not produce a value. */
module Wrappers {
  datatype Option<+T> = None | Some(value: T)
}
