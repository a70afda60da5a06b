/** Optional values: a field that a persisted record may or may not carry. */
module Wrappers {

  datatype Option<+T> = None | Some(value: T)
}
