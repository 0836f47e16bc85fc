/** A value that may be absent: a JavaScript property that was never assigned. */
module Wrappers {
  datatype Option<+T> = None | Some(value: T)
}
