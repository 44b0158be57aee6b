/** Small result types shared by the models. */
module Wrappers {
  /** A value that may be absent: a null pointer, an empty slot, a failed search. */
  datatype Option<+T> = None | Some(value: T)
}
