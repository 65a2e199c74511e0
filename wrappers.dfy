/** The conventional optional value, used for parses that can fail. */
module Wrappers {
  datatype Option<+T> = None | Some(value: T)
}
