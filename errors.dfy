/** The exceptions raised by the modelled code, and the result type that carries them. */
module Errors {

  /** One constructor per kind of exception the client, the response mapper and the
      config loader can raise. */
  datatype Error =
    | KeyError(key: string)             // `d[key]` on a dictionary without `key`
    | InvalidPayload(message: string)   // "Invalid manga json" / "Invalid chapter json"
    | InvalidQuality(quality: string)   // the allow-list check of the config loader
    | NotAnImageQuality(value: string)  // `ImageQuality(value)` with no member of that value
    | HttpStatus(status: int)           // `raise_for_status()` on a failing status
    | NonHexadecimal(position: nat)     // `bytes.fromhex` on a malformed key
    | ZeroDivision                      // `s % 0` with an empty key

  /** Either the value an operation returns or the exception it raises. */
  datatype Result<+T> = Ok(value: T) | Err(error: Error) {
    predicate IsFailure() { Err? }
    function PropagateFailure<U>(): Result<U> requires Err? { Err(error) }
    function Extract(): T requires Ok? { value }
  }

  datatype Option<+T> = None | Some(value: T)
}
