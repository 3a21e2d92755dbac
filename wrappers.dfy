/** Optional values: a JSON field that may be absent, a document that may not be found. */
module Wrappers {

  datatype Option<+T> = None | Some(value: T)
}
