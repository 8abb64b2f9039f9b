/** Optional values, for lookups and parsers that can fail. */
module Wrappers {

  datatype Option<+T> = None | Some(value: T)

}
