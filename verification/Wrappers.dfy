/** The optional value used for missing cells and for the results of external steps. */
module Wrappers {
  datatype Option<+T> = None | Some(value: T)
}
