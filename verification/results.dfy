/** Results and errors shared by every component (src/error.rs). */
module Results {

  datatype Option<+T> = None | Some(value: T) {
    predicate IsFailure() { None? }
    function PropagateFailure<U>(): Option<U>
      requires None?
    {
      None
    }
    function Extract(): T
      requires Some?
    {
      value
    }
    function GetOr(default: T): T {
      if Some? then value else default
    }
    function OrElse(other: Option<T>): Option<T> {
      if Some? then this else other
    }
  }

  datatype PinFailure =
    | TooShort(minLength: nat)
    | TooLong
    | InvalidEncoding
    | PolicyViolation
    | Invalid
    | Blocked
    | AuthBlocked
    | NotSet

  /** `WscdError` without its message texts. */
  datatype WscdError =
    | NoPlugin
    | Unsupported
    | KeyNotFound
    | AuthCancelled
    | Plugin
    | Callback
    | Serialization
    | Crypto
    | Pin(failure: PinFailure)
    | StrongBoxUnavailable
    | UnconfirmedCleanup

  datatype Result<+T> = Ok(value: T) | Err(error: WscdError) {
    predicate IsFailure() { Err? }
    function PropagateFailure<U>(): Result<U>
      requires Err?
    {
      Err(error)
    }
    function Extract(): T
      requires Ok?
    {
      value
    }
  }

  /** `Option::ok_or_else` with a crypto error. */
  function Required<T>(o: Option<T>): Result<T> {
    match o
    case Some(v) => Ok(v)
    case None => Err(Crypto)
  }
}
