/** Small failure-carrying datatypes and number types shared by the modules of the model. */
module Wrappers {

  /** A value that may be absent: stands for JavaScript's `undefined`
      (and, for numbers, for `NaN`). */
  datatype Option<+T> = None | Some(value: T)

  /** The outcome of an operation that may throw: `Err` carries the message. */
  datatype Result<+T> = Ok(value: T) | Err(message: string)

  /** Segment durations come from the manifest and are strictly positive. */
  type PositiveReal = r: real | r > 0.0 witness 1.0
}
