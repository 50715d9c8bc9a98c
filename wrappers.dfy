/** Optional values: SQL NULL, JavaScript null/undefined and absent options. */
module Wrappers {

  datatype Option<+T> = None | Some(value: T)

}
