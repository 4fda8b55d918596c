/** The optional value used wherever the Kotlin code returns a nullable result. */
module Wrappers {
  datatype Option<+T> = None | Some(value: T)
}
