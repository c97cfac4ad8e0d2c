/**
 * The exception hierarchy of app/exceptions.py with the foreign exceptions that
 * cross it. Every domain kind derives from the root GrammarCheckError.
 */
module Exceptions {

  datatype ErrorKind =
    | GrammarCheck        // GrammarCheckError, the root
    | OllamaConnection    // OllamaConnectionError
    | OllamaTimeout       // OllamaTimeoutError
    | OllamaResponse      // OllamaResponseError
    | InvalidResponse     // InvalidResponseError
    | ModelNotAvailable   // ModelNotAvailableError
    | TextTooLong         // TextTooLongError
    | InvalidInput        // InvalidInputError

  /** A raised exception; `message` is what `str(e)` gives. */
  datatype Exception =
    | Domain(kind: ErrorKind, message: string)   // GrammarCheckError or a subclass
    | ConnectError(message: string)              // httpx.ConnectError
    | Timeout(message: string)                   // httpx.TimeoutException
    | Builtin(message: string)                   // any other Exception (ValueError, AttributeError, ...)

  /** `issubclass(k, cls)` within the domain hierarchy: the root, or the class itself. */
  predicate IsSubclass(k: ErrorKind, cls: ErrorKind) {
    cls == GrammarCheck || k == cls
  }

  /** `isinstance(e, cls)` for a domain class, the test an `except cls:` arm makes. */
  predicate IsInstance(e: Exception, cls: ErrorKind) {
    e.Domain? && IsSubclass(e.kind, cls)
  }

  /** Every domain exception is caught by `except GrammarCheckError`, nothing else is. */
  lemma RootCatchesDomain(e: Exception)
    ensures IsInstance(e, GrammarCheck) <==> e.Domain?
  {
  }
}
