/** The optional value used where the controller works with Ruby's nil. */
module Wrappers {

  datatype Option<+T> = None | Some(value: T)
}
