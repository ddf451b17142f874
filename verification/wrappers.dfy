/** The optional value used for spreadsheet cells that may be blank. */
module Wrappers {

  datatype Option<+T> = None | Some(value: T)
}
