/** The optional value used where the C# sources use `null`. */
module Wrappers {

  datatype Option<+T> = None | Some(value: T)
}
