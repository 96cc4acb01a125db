/** The optional value, used where the lookup finds nothing or a field is unset. */
module Wrappers {

  datatype Option<+T> = None | Some(value: T)
}
