/** A value that a step may or may not hand to its consumer. */
module Wrappers {
  datatype Option<+T> = None | Some(value: T)
}
