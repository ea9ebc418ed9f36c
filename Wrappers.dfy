/** The optional value used across the model. */
module Wrappers {

  /** `None` stands for a JavaScript value that is `undefined` or `null`. */
  datatype Option<+T> = None | Some(value: T)
}
