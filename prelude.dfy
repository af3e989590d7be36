/** Small value types shared by the modules of the validator model. */
module Prelude {

  /** One byte of a document, as Go's `byte`. */
  type byte = b: int | 0 <= b < 0x100

  /** An optional value; `None` stands for Go's nil (a nil pointer, a missing map entry, a nil function). */
  datatype Option<+T> = None | Some(value: T)

  /** What a Go function returning `error` reports: `Pass` for a nil error, `Fail` carrying the error otherwise. */
  datatype Outcome<+E> = Pass | Fail(error: E)
}
