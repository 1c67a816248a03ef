/** The optional value used for "no entry" results and for a field's referenced message. */
module Wrappers {

  datatype Option<+T> = None | Some(value: T)

}
