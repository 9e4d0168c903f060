/** An optional value: stands for a JavaScript argument or option field that may be left out. */
module Wrappers {
  datatype Option<+T> = None | Some(value: T)
}
