/** An optional value: a prop that may be absent, a search that may find nothing. */
module Wrappers {
  datatype Option<T> = None | Some(value: T)
}
