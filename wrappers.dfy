/** Optional values: `None` stands for the source's `false` / NaN outcomes. */
module Wrappers {
  datatype Option<+T> = None | Some(value: T)
}
