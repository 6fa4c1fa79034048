/** Optional values, used for the anchor cell and for the result of parsing. */
module Wrappers {

  datatype Option<+T> = None | Some(value: T)
}
