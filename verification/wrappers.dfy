/** The nullable-value wrapper used across the model: a C++ null pointer is `None`. */
module Wrappers {

  datatype Option<+T> = None | Some(value: T)
}
