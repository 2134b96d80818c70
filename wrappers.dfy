/** The optional value used for request fields, nullable columns and the session. */
module Wrappers {
  datatype Option<+T> = None | Some(value: T)
}
