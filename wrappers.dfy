/** The optional value used for C#'s nullable results (`int?`, `string?`). */
module Wrappers {
  datatype Option<+T> = None | Some(value: T)
}
