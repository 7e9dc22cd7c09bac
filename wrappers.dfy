/** The not-found / parse-failure signal used throughout the model, in place of Java's null and exceptions. */
module Wrappers {

  datatype Option<+T> = None | Some(value: T)
}
