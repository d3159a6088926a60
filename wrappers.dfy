/** An optional value: a field the catalog may leave out, or a request that was not issued. */
module Wrappers {
  datatype Option<+T> = None | Some(value: T)
}
