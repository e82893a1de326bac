/** Optional values: SQL NULL columns, optional query parameters, "no row found". */
module Wrappers {
  datatype Option<+T> = None | Some(value: T)
}
