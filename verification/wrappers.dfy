/** The optional value, used for C references that may be NULL. */
module Wrappers {

  datatype Option<+T> = None | Some(value: T)
}
