/** Optional values: a JSON field that may be absent, or an external answer
    that may not have arrived. */
module Wrappers {

  datatype Option<+T> = None | Some(value: T)
}
