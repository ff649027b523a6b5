/** Outcomes of the payment-method handlers: a value, or the exception the
    handler lets escape. */
module PaymentResults {

  /** The exceptions that can leave a handler. `PaymentMethodUnavailable` is the
      typed "this rail cannot be offered now" error; the others escape raw,
      `ServiceFault` being whatever exception a called service threw. */
  datatype Failure =
    | PaymentMethodUnavailable(message: string)
    | DivideByZero
    | Overflow
    | NullReference
    | ArgumentNull(paramName: string)
    | ServiceFault(message: string)

  datatype Result<T> = Ok(value: T) | Err(error: Failure)

  /** A reference the source may hold as `null`. */
  datatype Option<T> = None | Some(value: T)

  /** `x ?? ""`: a null string substitutes as the empty string. */
  function OrEmpty(x: Option<string>): (s: string)
    ensures x.None? ==> s == ""
    ensures x.Some? ==> s == x.value
  {
    match x
    case None => ""
    case Some(v) => v
  }

  /** Largest magnitude of a .NET `decimal`, 2^96 - 1. */
  const DecimalMaxValue: real := 79228162514264337593543950335.0

  /** A value a `decimal` operation cannot hold: it throws `OverflowException`. */
  predicate DecimalOverflows(x: real) {
    x > DecimalMaxValue || x < -DecimalMaxValue
  }

  /** Message of the runtime's NullReferenceException. */
  const NullReferenceMessage: string := "Object reference not set to an instance of an object."
}
