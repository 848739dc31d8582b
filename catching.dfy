/**
 * The `catch` decorator of `log` and `logger`: it lets a return through, and
 * an error outside `Exception` (KeyboardInterrupt, SystemExit, ...) is not
 * caught at all. It re-raises an error that already carries two arguments,
 * and otherwise logs
 * the error once under the node `module.function` and re-raises it "signed",
 * as the same class with the arguments `(node, original first argument)`.
 */
module Catching {
  import opened Wrappers
  import opened Exceptions
  import opened PyValues

  function NodeInfo(moduleName: string, funcName: string): string {
    moduleName + "." + funcName
  }

  /** The wrapped call raised an error that `except Exception` catches and no catcher has signed. */
  predicate RaisedUnsigned<T>(body: Traced<T>) {
    body.outcome.Raised? && IsException(body.outcome.exc.cls) && !Signed(body.outcome.exc)
  }

  /** A call whose outcome every further catcher lets through untouched. */
  predicate Settled<T>(body: Traced<T>) {
    body.outcome.Ok? || !IsException(body.outcome.exc.cls) || Signed(body.outcome.exc)
  }

  /**
   * The decorator around a function whose module is known, `node` being
   * `module.function`. An error without arguments is logged and then fails
   * at `error.args[0]` with an IndexError of its own.
   */
  function CatchIn<T>(node: string, body: Traced<T>): (r: Traced<T>)
    ensures body.log <= r.log
    ensures |r.log| == |body.log| + (if RaisedUnsigned(body) then 1 else 0)
    ensures RaisedUnsigned(body) ==> r.log[|body.log|] == Record(node, body.outcome.exc.cls + ": " + ExcStr(body.outcome.exc))
    ensures Settled(body) ==> r == body
    ensures body.outcome.Raised? <==> r.outcome.Raised?
    ensures RaisedUnsigned(body) && |body.outcome.exc.args| > 0 ==>
              r.outcome == Raised(Exc(body.outcome.exc.cls, [node, body.outcome.exc.args[0]]))
    ensures RaisedUnsigned(body) && |body.outcome.exc.args| == 0 ==>
              r.outcome == Raised(Error("IndexError", "tuple index out of range"))
    ensures !(RaisedUnsigned(body) && |body.outcome.exc.args| == 0) ==> Settled(r)
  {
    match body.outcome
    case Ok(_) => body
    case Raised(e) =>
      if !IsException(e.cls) || Signed(e) then body
      else
        var logged := body.log + [Record(node, e.cls + ": " + ExcStr(e))];
        if |e.args| == 0 then Traced(Raised(Error("IndexError", "tuple index out of range")), logged)
        else Traced(Raised(Exc(e.cls, [node, e.args[0]])), logged)
  }

  /** A fresh `Exception` with one argument, from a call that logged nothing, is logged once and signed. */
  lemma CatchFresh<T>(node: string, e: Exc)
    requires IsException(e.cls) && |e.args| == 1
    ensures CatchIn<T>(node, Traced(Raised(e), [])) ==
              Traced(Raised(Exc(e.cls, [node, e.args[0]])), [Record(node, e.cls + ": " + ExcStr(e))])
  {
  }

  /**
   * The decorator in general: when `inspect.getmodule` finds no module, an
   * unsigned `Exception` is swallowed and the wrapper returns None.
   */
  function Catch(moduleName: Option<string>, funcName: string, body: Traced<Value>): (r: Traced<Value>)
    ensures body.log <= r.log
    ensures Settled(body) ==> r == body
    ensures moduleName.None? && RaisedUnsigned(body) ==> r == Traced(Ok(PyNone), body.log)
    ensures moduleName.Some? ==> r == CatchIn(NodeInfo(moduleName.value, funcName), body)
  {
    match moduleName
    case Some(m) => CatchIn(NodeInfo(m, funcName), body)
    case None => if RaisedUnsigned(body) then Traced(Ok(PyNone), body.log) else body
  }

  /** One decorated function on the call chain. */
  datatype Layer = Layer(moduleName: Option<string>, funcName: string)

  /**
   * A call through nested decorated functions, innermost first: each one
   * returns (or lets propagate) what the one inside it produced.
   */
  function CatchNested(layers: seq<Layer>, body: Traced<Value>): Traced<Value>
    decreases |layers|
  {
    if |layers| == 0 then body
    else CatchNested(layers[1..], Catch(layers[0].moduleName, layers[0].funcName, body))
  }

  /** Once settled, an outcome passes every further decorator unchanged. */
  lemma {:induction false} SettledPassesThrough(layers: seq<Layer>, body: Traced<Value>)
    requires Settled(body)
    ensures CatchNested(layers, body) == body
    decreases |layers|
  {
    if |layers| > 0 {
      SettledPassesThrough(layers[1..], body);
    }
  }

  /**
   * Nested decorators act as the innermost one alone, so a failure is logged
   * at most once, where it was raised, whatever the depth — unless the error
   * had no arguments at all.
   */
  lemma {:induction false} NestedActsAsInnermost(layers: seq<Layer>, body: Traced<Value>)
    requires |layers| > 0
    requires !(body.outcome.Raised? && |body.outcome.exc.args| == 0)
    ensures CatchNested(layers, body) == Catch(layers[0].moduleName, layers[0].funcName, body)
  {
    var first := Catch(layers[0].moduleName, layers[0].funcName, body);
    assert Settled(first);
    SettledPassesThrough(layers[1..], first);
  }

  /**
   * An unsigned error with arguments, raised under nested decorators whose
   * innermost module is known, leaves exactly one record and surfaces signed
   * with the innermost node.
   */
  lemma LoggedExactlyOnce(layers: seq<Layer>, body: Traced<Value>)
    requires |layers| > 0 && layers[0].moduleName.Some?
    requires RaisedUnsigned(body) && |body.outcome.exc.args| > 0
    ensures var r := CatchNested(layers, body);
      var node := NodeInfo(layers[0].moduleName.value, layers[0].funcName);
      && |r.log| == |body.log| + 1
      && r.log[|body.log|].node == node
      && r.outcome == Raised(Exc(body.outcome.exc.cls, [node, body.outcome.exc.args[0]]))
  {
    NestedActsAsInnermost(layers, body);
  }

  /** An error that happens to have two arguments is never logged by any decorator. */
  lemma TwoArgumentsNeverLogged(layers: seq<Layer>, cls: string, a: string, b: string, log: seq<Record>)
    ensures CatchNested(layers, Traced(Raised(Exc(cls, [a, b])), log)) == Traced(Raised(Exc(cls, [a, b])), log)
  {
    SettledPassesThrough(layers, Traced(Raised(Exc(cls, [a, b])), log));
  }

  /**
   * An error outside `Exception` goes up through any number of decorators
   * with its own arguments and no record, even where no module is known.
   */
  lemma BaseExceptionPassesThrough(layers: seq<Layer>, e: Exc, log: seq<Record>)
    requires !IsException(e.cls)
    ensures CatchNested(layers, Traced(Raised(e), log)) == Traced(Raised(e), log)
  {
    SettledPassesThrough(layers, Traced(Raised(e), log));
  }

  /**
   * An `Exception` without arguments is logged once by each of two nested
   * decorators: first as itself, then as the IndexError of `error.args[0]`,
   * which the outer decorator signs.
   */
  lemma ZeroArgumentsLoggedTwice(cls: string, m1: string, f: string, m2: string, g: string)
    requires IsException(cls)
    ensures var r := CatchNested([Layer(Some(m1), f), Layer(Some(m2), g)], Traced(Raised(Exc(cls, [])), []));
      && r.log == [Record(NodeInfo(m1, f), cls + ": "), Record(NodeInfo(m2, g), "IndexError: " + "tuple index out of range")]
      && r.outcome == Raised(Exc("IndexError", [NodeInfo(m2, g), "tuple index out of range"]))
  {
    var body := Traced(Raised(Exc(cls, [])), []);
    assert cls + ": " + ExcStr(body.outcome.exc) == cls + ": ";
    var inner := Catch(Some(m1), f, body);
    assert inner == Traced(Raised(Error("IndexError", "tuple index out of range")), [Record(NodeInfo(m1, f), cls + ": ")]);
    assert ExcStr(inner.outcome.exc) == "tuple index out of range";
    assert "IndexError" + ": " == "IndexError: ";
    assert IsException("IndexError");
    var outer := Catch(Some(m2), g, inner);
    assert outer.log == inner.log + [Record(NodeInfo(m2, g), "IndexError: " + "tuple index out of range")];
    assert CatchNested([Layer(Some(m2), g)], inner) == outer;
  }
}
