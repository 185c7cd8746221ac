/** The absence marker used wherever the C# code has a nullable value. */
module Wrappers {

  datatype Option<+T> = None | Some(value: T)
}
