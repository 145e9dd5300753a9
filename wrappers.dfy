/** An optional value. */
module Wrappers {
  datatype Option<+T> = Nothing | Some(value: T)
}
