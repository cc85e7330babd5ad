/** The optional value the rest of the model uses for "absent" and "did not parse". */
module Wrappers {
  datatype Option<T> = None | Some(value: T)
}
