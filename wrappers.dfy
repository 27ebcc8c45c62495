/** The optional value used where the script reads `undefined`: a missing
    account, a balance never computed, or a `reduce` that throws. */
module Wrappers {
  datatype Option<+T> = None | Some(value: T)
}
