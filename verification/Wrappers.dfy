/** An absent or present value: Python's `X | None`. */
module Wrappers {
  datatype Option<+T> = None | Some(value: T)
}
