/**
 * Raised exceptions, call outcomes and the error log that the `catch`
 * decorators write to.
 */
module Exceptions {
  import opened PyText

  /** An exception: the name of its class and its `args` tuple. */
  datatype Exc = Exc(cls: string, args: seq<string>)

  /** What a call does: return a value or raise. */
  datatype Outcome<+T> = Ok(value: T) | Raised(exc: Exc)

  /** One error-level log record, with the `node` bound by `contextualize`. */
  datatype Record = Record(node: string, message: string)

  /** An outcome together with the log records the call emitted, oldest first. */
  datatype Traced<+T> = Traced(outcome: Outcome<T>, log: seq<Record>)

  /** Python's `str(error)`: empty, the one argument, or the tuple's repr. */
  function ExcStr(e: Exc): string {
    if |e.args| == 0 then ""
    else if |e.args| == 1 then (if e.cls == "KeyError" then StrRepr(e.args[0]) else e.args[0])
    else "(" + Join(", ", seq(|e.args|, k requires 0 <= k < |e.args| => StrRepr(e.args[k]))) + ")"
  }

  /**
   * The built-in classes that derive from `BaseException` but not from
   * `Exception`, so that `except Exception` does not catch them.
   */
  const BaseOnly: set<string> := {"BaseException", "BaseExceptionGroup", "GeneratorExit", "KeyboardInterrupt", "SystemExit"}

  /** Whether `except Exception` catches an error of class `cls`. */
  predicate IsException(cls: string) {
    cls !in BaseOnly
  }

  /** The classes the helpers raise all derive from `Exception`. */
  lemma RaisedClasses()
    ensures IsException("ValueError") && IsException("IndexError") && IsException("TypeError")
    ensures IsException("UnboundLocalError") && IsException("KeyError")
  {
  }

  /** What the decorators take as "some catcher already signed this error". */
  predicate Signed(e: Exc) {
    |e.args| == 2
  }

  /** An exception with one message argument, as `raise Cls(message)` makes. */
  function Error(cls: string, message: string): Exc {
    Exc(cls, [message])
  }

  /** The error of indexing a string out of range (`s[0]` or `s[-1]` on ""). */
  const StringIndexError := Error("IndexError", "string index out of range")

  /** How the decorators log `StringIndexError`. */
  lemma StringIndexErrorRecord()
    ensures ExcStr(StringIndexError) == "string index out of range"
    ensures StringIndexError.cls + ": " + ExcStr(StringIndexError) == "IndexError: " + "string index out of range"
  {
    assert StringIndexError.cls != "KeyError";
    assert "IndexError" + ": " == "IndexError: ";
  }

  /**
   * `message = f(...); raise Cls(message)`: raise `cls` with the message `msg`
   * produced, or let `msg`'s own exception through; the log is kept.
   */
  function RaiseMessage<U>(cls: string, msg: Traced<string>): (r: Traced<U>)
    ensures r.log == msg.log && r.outcome.Raised?
    ensures msg.outcome.Ok? ==> r.outcome.exc == Error(cls, msg.outcome.value)
    ensures msg.outcome.Raised? ==> r.outcome.exc == msg.outcome.exc
  {
    match msg.outcome
    case Ok(m) => Traced(Raised(Error(cls, m)), msg.log)
    case Raised(e) => Traced(Raised(e), msg.log)
  }
}
