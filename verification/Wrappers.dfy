/** The one failure-free wrapper the project needs: a value that may be absent. */
module Wrappers {
  datatype Option<+T> = None | Some(value: T)
}
