/** The optional value used where PHP returns `false` or `null` for "not found". */
module Wrappers {

  datatype Option<+T> = None | Some(value: T)
}
