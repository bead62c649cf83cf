/**
 * Vocabulary shared by the client and the server models: optional values,
 * values raised by JavaScript `throw`, and the settled outcome of one awaited
 * effect (a write, a delete, a constructor call).
 */
module Outcomes {

  datatype Option<+T> = None | Some(value: T)

  /** A thrown value: an `Error` instance with its `message`, or any other value. */
  datatype Thrown = ErrorValue(message: string) | OtherValue

  /** How one awaited effect settled. */
  datatype Step = Done | Throws(thrown: Thrown)

  /** What a `catch` block reports: `e instanceof Error ? e.message : fallback`. */
  function MessageOr(t: Thrown, fallback: string): (message: string)
  {
    match t
    case ErrorValue(m) => m
    case OtherValue => fallback
  }
}
