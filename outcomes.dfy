/** Values shared by every part of the model: Python's `None`-or-value, a raised
    exception, and what one call of a Python callable does. */
module Outcomes {

  /** A field or variable that may hold `None`. */
  datatype Option<+T> = None | Some(value: T)

  /** A raised exception: the name of its class and its message. */
  datatype Error = Error(kind: string, msg: string)

  /** One call of a callable: it returns a value or raises an exception. */
  datatype Attempt<+T> = Ok(value: T) | Err(error: Error)

  /** `f'{type(e).__name__}: {e}'`, the text the scraper logs for an exception. */
  function ErrorText(e: Error): string
  {
    e.kind + ": " + e.msg
  }
}
