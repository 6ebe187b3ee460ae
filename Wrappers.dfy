/** Nullable references and values of the C# source, as an explicit Option. */
module Wrappers {

  /** `None` stands for a C# `null`. */
  datatype Option<+T> = None | Some(value: T)
}
