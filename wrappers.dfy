/** The conventional Some/None datatype, used where the source returns -1 or nothing. */
module Wrappers {

  datatype Option<+T> = None | Some(value: T)
}
