/** The exceptions the naming code can raise, and the Option/Result wrappers the
    model uses in place of Python's None and raise. */
module Failures {

  /** Every exception a construction can end in. The first three are the
      program's own (subclasses of NazvosloviException, nazvoslovi.py:22-25) and
      are caught by `recognize`; the others are Python built-ins that the source
      lets escape. */
  datatype Exception =
    | IncorrectFormat
    | UnknownElement
    | WrongOxidation
    | KeyError
    | ValueError
    | IndexError
    | ZeroDivisionError
    | TypeError

  /** True of the exceptions that derive from NazvosloviException. */
  predicate IsNazvosloviException(e: Exception)
  {
    e.IncorrectFormat? || e.UnknownElement? || e.WrongOxidation?
  }

  datatype Option<+T> = None | Some(value: T)

  /** A value, or the exception raised while computing it. */
  datatype Result<+T> = Ok(value: T) | Err(error: Exception) {
    predicate IsFailure() { Err? }

    function PropagateFailure<U>(): Result<U>
      requires Err?
    {
      Err(error)
    }

    function Extract(): T
      requires Ok?
    {
      value
    }
  }
}
