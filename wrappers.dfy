/** Outcome types shared by the model. */
module Wrappers {

  datatype Option<+T> = None | Some(value: T)

  /** The outcome of a step that can raise: its value, or the text of the
      exception (what `str(e)` would print). */
  datatype Result<+T> = Ok(value: T) | Error(message: string)
}
