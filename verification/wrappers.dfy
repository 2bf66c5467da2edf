/** Optional values: `None` stands for the source's `null` / `undefined`. */
module Wrappers {
  datatype Option<+T> = None | Some(value: T)
}
