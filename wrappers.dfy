/** Failure-carrying result types shared by the parser and the numeral readers. */
module Wrappers {

  /** A value that may be missing: how the numeral readers report "does not parse". */
  datatype Option<+T> = None | Some(value: T)

  /** Either a value or an error: how the strategy parser reports its outcome. */
  datatype Result<+T, +E> = Ok(value: T) | Err(error: E)
}
