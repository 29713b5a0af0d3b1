/** The optional-value datatype used throughout the model in place of
    JavaScript's `null`, `undefined` and the `-1` "not found" sentinel. */
module Wrappers {

  datatype Option<+T> = None | Some(value: T)

}
