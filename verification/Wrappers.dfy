/** The option type the kernel's `Option<T>` fields and results become. */
module Wrappers {
  datatype Option<+T> = None | Some(value: T)
}
