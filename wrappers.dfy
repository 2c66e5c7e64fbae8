/** The optional value used for record fields that JavaScript may leave unset. */
module Wrappers {

  datatype Option<+T> = None | Some(value: T)
}
