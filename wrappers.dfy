/** Optional values: a row that may be missing, a claim that may be absent. */
module Wrappers {

  datatype Option<+T> = None | Some(value: T)
}
