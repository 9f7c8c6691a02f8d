/** `None` stands for Python's `None`: a statistic with no value. */
module Wrappers {
  datatype Option<T> = None | Some(value: T)
}
