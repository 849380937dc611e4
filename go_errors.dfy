/** Go's `error` values as the mail server builds them: a plain message, or the
    result of `fmt.Errorf` with a `%w` verb, which keeps the error it wraps so
    that `errors.Unwrap` returns it. A nil error is `None`. */
module GoErrors {

  datatype Option<+T> = None | Some(value: T)

  /** A non-nil Go error. `Wrapped(prefix, inner)` is `fmt.Errorf(prefix + "%w", inner)`. */
  datatype GoError = Plain(text: string) | Wrapped(prefix: string, inner: GoError)

  /** An `error` variable: `None` is nil. */
  type Err = Option<GoError>

  /** `err.Error()`: the message the error prints. */
  function Text(e: GoError): string
  {
    match e
    case Plain(t) => t
    case Wrapped(p, inner) => p + Text(inner)
  }

  /** `errors.Unwrap`: the wrapped error of a `%w` error, nothing for a plain one. */
  function Unwrap(e: GoError): Err
  {
    match e
    case Plain(_) => None
    case Wrapped(_, inner) => Some(inner)
  }

  /** `fmt.Errorf(prefix + "%w", e)` for a non-nil `e`; its message is the prefix followed
      by the message of `e`, and unwrapping it gives `e` back. */
  function Wrap(prefix: string, e: GoError): (r: GoError)
    ensures Text(r) == prefix + Text(e)
    ensures Unwrap(r) == Some(e)
  {
    Wrapped(prefix, e)
  }
}
