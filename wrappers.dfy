/** Optional values, for the source's `T | null` results and `?` fields. */
module Wrappers {

  datatype Option<+T> = None | Some(value: T)
}
