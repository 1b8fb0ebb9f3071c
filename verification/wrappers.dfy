/** The conventional optional value, used where a lookup by name can miss. */
module Wrappers {

  datatype Option<+T> = None | Some(value: T)
}
