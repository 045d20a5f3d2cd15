/** The optional value used where the client has `undefined` or `null`. */
module Wrappers {

  datatype Option<+T> = None | Some(value: T)
}
