/** The optional value that stands for the source's `string | null` result. */
module Wrappers {

  /** `None` is the source's `null`; `Some(v)` carries a string result. */
  datatype Option<T> = None | Some(value: T)
}
