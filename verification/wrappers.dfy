/** The optional value used for "no match" and "no point". */
module Wrappers {

  datatype Option<+T> = None | Some(value: T)
}
