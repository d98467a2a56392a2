/** An optional value: a configuration entry that may be absent, or a
    JavaScript `undefined` result. */
module Wrappers {
  datatype Option<+T> = None | Some(value: T)
}
