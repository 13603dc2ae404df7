/** The optional value used for the store's nullable fields. */
module Wrappers {
  datatype Option<+T> = None | Some(value: T)
}
