/** The optional value used for the entity fields that a log may or may not set. */
module Wrappers {

  datatype Option<+T> = None | Some(value: T)
}
