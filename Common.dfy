/** Values shared by every part of the frontend model: optional values, the
    outcome of a promise, user-visible notices, and the two time scales the
    code converts between (backend nanoseconds, browser milliseconds). */
module Common {

  datatype Option<+T> = None | Some(value: T) {
    function GetOr(default: T): T {
      match this
      case Some(v) => v
      case None => default
    }
  }

  /** What a rejected promise carries: an `Error` object with its message, or
      any other thrown value. */
  datatype Failure = ErrorObject(message: string) | OtherThrown

  /** The settled state of a promise: fulfilled with a value, or rejected. */
  datatype Result<+T> = Ok(value: T) | Err(error: Failure)

  /** A transient notice shown to the user (a `toast`). */
  datatype Toast = ToastSuccess(text: string) | ToastError(text: string)

  /** `error instanceof Error ? error.message : fallback` */
  function ErrorText(f: Failure, fallback: string): string {
    match f
    case ErrorObject(m) => m
    case OtherThrown => fallback
  }

  const NsPerMs: int := 1_000_000

  /** `new Date(Number(ns) / 1000000).getTime()`: a `Date` keeps the integral
      part of its argument, so the conversion truncates toward zero. (Dafny's
      `/` is Euclidean, hence the explicit case for negative values.) */
  function NsToMs(ns: int): (ms: int)
    ensures ns >= 0 ==> 0 <= ms && ms * NsPerMs <= ns < ms * NsPerMs + NsPerMs
    ensures ns < 0 ==> ms <= 0 && ms * NsPerMs - NsPerMs < ns <= ms * NsPerMs
  {
    if ns >= 0 then ns / NsPerMs else -((-ns) / NsPerMs)
  }

  /** `BigInt(ms * 1000000)`: a browser instant as a backend timestamp. */
  function MsToNs(ms: int): (ns: int)
    ensures NsToMs(ns) == ms
  {
    ms * NsPerMs
  }

  /** Truncating to milliseconds never reverses the order of two timestamps. */
  lemma NsToMsMonotone(a: int, b: int)
    requires a <= b
    ensures NsToMs(a) <= NsToMs(b)
  {
  }
}
