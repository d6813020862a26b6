/** Optional values, used where the C programs leave a value unset or unreported. */
module Wrappers {

  datatype Option<+T> = None | Some(value: T)
}
