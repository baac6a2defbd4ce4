/** The optional value used for nullable fields of the store's records. */
module Wrappers {

  datatype Option<+T> = None | Some(value: T)
}
