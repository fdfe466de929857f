/** The optional value used where the viewer passes `undefined` or `null`. */
module Wrappers {
  datatype Option<+T> = None | Some(value: T)
}
