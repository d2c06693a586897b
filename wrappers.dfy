/** Optional values: a JavaScript value that may be `null`, or a computation that may throw. */
module Wrappers {

  datatype Option<+T> = None | Some(value: T)
}
