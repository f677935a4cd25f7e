/** Optional values: Python's `None` and JavaScript's missing fields. */
module Wrappers {

  datatype Option<+T> = None | Some(value: T)

}
