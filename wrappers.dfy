/** The optional value used for records that a lookup may not find and for casts that may fail. */
module Wrappers {
  datatype Option<+T> = None | Some(value: T)
}
