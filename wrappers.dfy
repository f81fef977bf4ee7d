/** The optional value used for a key code that has not been assigned yet
    and for a learning walk that has not finished. */
module Wrappers {
  datatype Option<+T> = None | Some(value: T)
}
