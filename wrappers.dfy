/** The optional value used for JavaScript's `undefined`/`null` where the sources distinguish it. */
module Wrappers {

  datatype Option<+T> = None | Some(value: T)
}
