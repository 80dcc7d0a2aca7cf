/** Optional values: the model's stand-in for JavaScript's `null` and for non-finite numbers. */
module Wrappers {

  datatype Option<+T> = None | Some(value: T)
}
