/** The optional value used wherever the Java code returns or accepts `null`. */
module Wrappers {
  datatype Option<+T> = None | Some(value: T)
}
