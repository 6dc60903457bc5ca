/** The optional-value type shared by every module: `None` stands for a
    JavaScript `null`/`undefined`/`NaN` outcome, `Some(v)` for a value. */
module Wrappers {

  datatype Option<+T> = None | Some(value: T)
}
