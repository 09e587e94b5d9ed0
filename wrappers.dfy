/** The optional value used for JavaScript's `null` / `undefined` / absent property. */
module Wrappers {
  datatype Option<+T> = None | Some(value: T)
}
