/** Stock result types shared by the other modules. */
module Wrappers {

  /** A value that may be absent: Python's None, or a failed lookup. */
  datatype Option<+T> = None | Some(value: T)
}
