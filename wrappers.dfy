/** The optional value used wherever the source either has something or not
    (a results file that may be absent, a dictionary that a key press may write). */
module Wrappers {
  datatype Option<+T> = None | Some(value: T)
}
