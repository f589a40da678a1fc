/** An optional value, used for the store's error result. */
module Wrappers {
  datatype Option<+T> = None | Some(value: T)
}
