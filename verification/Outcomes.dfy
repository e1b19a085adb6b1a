/** How calls end: with or without a value, normally or by an exception. */
module Outcomes {

  datatype Option<+X> = None | Some(value: X)

  datatype Outcome<+V, +E> = Value(value: V) | Threw(error: E)
}
