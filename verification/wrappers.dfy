/** The optional-value datatype shared by every module: JavaScript's
    `undefined`/`null` versus a present value. */
module Wrappers {

  datatype Option<+T> = None | Some(value: T)
}
