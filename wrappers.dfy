/** The optional value used where the Ruby code yields `nil` or a value. */
module Wrappers {

  datatype Option<+T> = None | Some(value: T)
}
