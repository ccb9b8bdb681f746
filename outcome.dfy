/** Results of the SVG reader: either a value or the error that aborts the read. */
module Outcome {

  /** The exceptions the reader can raise on its own inputs, named after what goes wrong. */
  datatype ReadError =
    | MissingAttribute(name: string)  // a root attribute looked up with `[...]` is absent
    | IndexOutOfRange                 // a list or array index past the end
    | DivisionByZero                  // a division whose divisor is zero
    | NegativeDimensions              // an array allocated with a negative size

  datatype Option<+T> = None | Some(value: T)

  datatype Result<+T> = Ok(value: T) | Err(error: ReadError)
}
