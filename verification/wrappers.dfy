/** The optional value the engines use wherever the source writes `T | null`. */
module Wrappers {

  datatype Option<+T> = Null | Some(value: T)
}
