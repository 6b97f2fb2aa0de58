/** Optional values: `None` stands for a missing or not-a-number result. */
module Wrappers {

  datatype Option<+T> = None | Some(value: T)
}
