/** The optional-value datatype used throughout the model. */
module Wrappers {
  /** `None` stands for JavaScript's `null`/`undefined`; `Some(v)` for a present value. */
  datatype Option<+T> = None | Some(value: T)
}
