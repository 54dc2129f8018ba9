/** Option and Result datatypes and a model of Go's wrapped error values.

    A Go `error` built with `fmt.Errorf("context: %w", cause)` keeps its cause
    and prints as the context, a colon and a space, then the cause's text.
    `Error` mirrors that chain; `Message` is the text `err.Error()` returns. */
module Errors {

  datatype Option<+T> = None | Some(value: T) {
    /** The encapsulated value, or `default` when there is none. */
    function GetOr(default: T): T {
      match this
      case Some(v) => v
      case None => default
    }
  }

  datatype Result<+T, +E> = Ok(value: T) | Err(error: E)

  /** A Go error: a leaf message, or a cause wrapped under a context string. */
  datatype Error = Leaf(text: string) | Wrap(context: string, cause: Error)

  /** True when `p` is a prefix of `s`. */
  predicate StartsWith(s: string, p: string) {
    |p| <= |s| && s[..|p|] == p
  }

  /** The text the error prints. */
  function Message(e: Error): string {
    match e
    case Leaf(t) => t
    case Wrap(c, cause) => c + ": " + Message(cause)
  }
}
