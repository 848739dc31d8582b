/** Optional values, for Python's `None` where a function may produce nothing. */
module Wrappers {

  datatype Option<+T> = None | Some(value: T)
}
