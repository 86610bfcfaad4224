/** The optional values that stand for SQL NULL, Python None and a failed search. */
module Wrappers {
  datatype Option<+T> = None | Some(value: T)
}
