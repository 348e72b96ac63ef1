/** Small optional-value datatype shared by the modules of the model. */
module Wrappers {
  /** A value that may be absent (`undefined` / `null` in the source). */
  datatype Option<T> = None | Some(value: T)
}
