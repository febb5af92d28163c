/** Optional values, used where search.js tests a value for presence. */
module Wrappers {
  datatype Option<+T> = None | Some(value: T)
}
