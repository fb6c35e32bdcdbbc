/** The optional values used where the program tests a reference against `null`. */
module Wrappers {

  datatype Option<+T> = None | Some(value: T)
}
