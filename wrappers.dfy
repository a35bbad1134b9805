/** Optional values: a file that may not open, a parse that may yield NaN. */
module Wrappers {

  datatype Option<+T> = None | Some(value: T)

}
