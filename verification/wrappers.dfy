/** The optional value used where the program has a "no such thing" case. */
module Wrappers {

  datatype Option<+T> = None | Some(value: T)
}
