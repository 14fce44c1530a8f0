/** An optional value: stands for JavaScript's `null`/absent and a present value. */
module Wrappers {

  datatype Option<+T> = None | Some(value: T)
}
