/** Optional values: the model's rendering of Python's `None`. */
module Wrappers {
  datatype Option<+T> = None | Some(value: T)
}
