/** Small value wrappers shared by the modules of this model. */
module Wrappers {

  /** A value that may be absent: the model's stand-in for a C# null reference. */
  datatype Option<+T> = None | Some(value: T)
}
