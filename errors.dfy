/** Outcomes shared by the modules: an optional value, and a result that is
    either a value or the exception Python would raise. */
module Errors {

  datatype Option<T> = None | Some(value: T)

  /** The exceptions the modelled code raises. */
  datatype Error =
      /** `TypeError` raised by the code itself, with its message. */
    | TypeError(message: string)
      /** The `TypeError` Python raises when neither operand supports a
          binary operator ("unsupported operand type(s)"). */
    | UnsupportedOperand
      /** `ZeroDivisionError` from `/`, `//` or `%` by zero. */
    | ZeroDivisionError

  datatype Result<T> = Ok(value: T) | Err(error: Error)
}
