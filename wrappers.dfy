/** Option and Result values shared by the modules of the model. */
module Wrappers {

  datatype Option<+T> = None | Some(value: T)

  datatype Result<+T, +E> = Ok(value: T) | Err(error: E)

  /** The error of a text-formatting call: it carries no information. */
  datatype FmtError = FmtError

  /** The error of a byte-stream write; the colourless sink never produces one. */
  datatype IoError = IoError
}
