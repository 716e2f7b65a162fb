/** The optional value used wherever JavaScript yields `undefined` or a parse
    may fail, and the outcome of an expression that may throw. */
module Wrappers {

  datatype Option<+T> = None | Some(value: T)

  /** The value of an expression, or the message of the error it throws. */
  datatype Outcome<+T> = Value(value: T) | Throw(message: string)
}
