/**
 * The exceptions the modelled code throws or catches, as values. Kotlin code that
 * throws becomes a function returning `Failure(e)`; `runCatching` and `try`/`catch`
 * become matches on the result.
 */
module Errors {
  import opened Wrappers
  import opened Text

  datatype Exception =
      /** BiliBiliApiException(code, message) */
    | ApiException(code: int, msg: string)
      /** IllegalArgumentException(message) */
    | IllegalArgument(msg: string)
      /** UnsupportedOperationException(message) */
    | Unsupported(msg: string)
      /** IndexOutOfBoundsException from `List.get(index)` on a list of `length` elements. */
    | IndexOutOfBounds(index: int, length: int)
      /** ClassCastException from reading a stored value as another type; its message is not modelled. */
    | ClassCast
      /** Any exception raised outside the model (network, JSON decoding); its message may be null. */
    | External(detail: Option<string>)
  {
    /** Throwable.message */
    function Message(): Option<string> {
      match this
      case ApiException(_, m) => Some(m)
      case IllegalArgument(m) => Some(m)
      case Unsupported(m) => Some(m)
      case IndexOutOfBounds(i, n) => Some("Index " + Decimal(i) + " out of bounds for length " + Decimal(n))
      case ClassCast => None
      case External(d) => d
    }
  }

  /** What a call into code outside the model (an HTTP call, a use case) produced. */
  type Outcome<T> = Result<T, Exception>
}
