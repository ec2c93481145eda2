/** The absent-or-present value used throughout the model (JavaScript's
    `undefined`/`null` versus a value). */
module Wrappers {

  datatype Option<+T> = None | Some(value: T)
}
