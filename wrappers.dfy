/** Option and Result types used for the parser's failure outcome. */
module Wrappers {

  datatype Option<+T> = None | Some(value: T)

  /** The outcome of a parse: a tree, or the internal error that the source raises as an exception. */
  datatype Result<+T> = Ok(value: T) | Error
}
