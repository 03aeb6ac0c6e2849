/** Optional values, for the record fields that the statistics store may omit. */
module Wrappers {

  datatype Option<+T> = None | Some(value: T)
}
