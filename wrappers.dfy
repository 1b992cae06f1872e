/** The optional value shared by the game configuration and the LED controller. */
module Wrappers {
  datatype Option<T> = None | Some(value: T)
}
