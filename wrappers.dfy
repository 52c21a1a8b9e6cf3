/** A value that may be absent: `undefined` for a property read, "no match" for a search. */
module Wrappers {

  datatype Option<+T> = None | Some(value: T)
}
