/**
 * `format_message(text, *args, no_arg_phrase, enclosing_char)` of `warepy`:
 * list arguments are flattened, missing values become the phrase, the number
 * of `{}` fields must equal the number of values, and each value is inserted
 * between two enclosing characters.
 */
module MessageFormat {
  import opened Wrappers
  import opened PyText
  import opened PyValues
  import opened Exceptions
  import opened StrFormat

  /** What one value stands for: the phrase for None and for falsy non-integers. */
  function Filled(v: Value, phrase: string): Value {
    if v.PyNone? || (!Truthy(v) && !IsIntInstance(v)) then PyStr(phrase) else v
  }

  /** The values one argument contributes: a list is unpacked, an empty one gives the phrase once. */
  function Contribution(arg: Value, phrase: string): (vs: seq<Value>) {
    if arg.PyList? then
      (if |arg.items| == 0 then [PyStr(phrase)] else [])
      + seq(|arg.items|, k requires 0 <= k < |arg.items| => Filled(arg.items[k], phrase))
    else [Filled(arg, phrase)]
  }

  /** `vars_to_format` after the first loop. */
  function CollectVars(args: seq<Value>, phrase: string): seq<Value>
    decreases |args|
  {
    if |args| == 0 then []
    else CollectVars(args[..|args| - 1], phrase) + Contribution(args[|args| - 1], phrase)
  }

  /** How many values one argument contributes. */
  function Width(arg: Value): nat {
    if arg.PyList? && |arg.items| > 0 then |arg.items| else 1
  }

  function TotalWidth(args: seq<Value>): nat
    decreases |args|
  {
    if |args| == 0 then 0 else TotalWidth(args[..|args| - 1]) + Width(args[|args| - 1])
  }

  /** `enclosing_char + str(var) + enclosing_char` for every value. */
  function Enclosed(vars: seq<Value>, c: string): (r: seq<string>)
    ensures |r| == |vars|
  {
    seq(|vars|, k requires 0 <= k < |vars| => c + Str(vars[k]) + c)
  }

  function MismatchError(text: string, vars: seq<Value>): Exc {
    Error("ValueError", "Text `" + text + "` has different number of braces than amount of given arguments: `"
                        + Repr(PyList(vars)) + "`.")
  }

  /** Reading `enclosed_vars_to_format` when `enclosing_char` is None. */
  const UnboundEnclosed := Error("UnboundLocalError", "local variable 'enclosed_vars_to_format' referenced before assignment")

  /** What `format_message` returns or raises; `enclosing` None is `enclosing_char=None`. */
  function FormatMessageSpec(text: string, args: seq<Value>, phrase: string, enclosing: Option<string>): Outcome<string>
    requires PlainTemplate(text)
  {
    var vars := CollectVars(args, phrase);
    if CountPlaceholders(text) != |vars| then Raised(MismatchError(text, vars))
    else if enclosing.None? then Raised(UnboundEnclosed)
    else Format(text, Enclosed(vars, enclosing.value))
  }

  /** The loops of `format_message`, building `vars_to_format` and `enclosed_vars_to_format`. */
  method FormatMessage(text: string, args: seq<Value>, phrase: string, enclosing: Option<string>)
    returns (r: Outcome<string>)
    requires PlainTemplate(text)
    ensures r == FormatMessageSpec(text, args, phrase, enclosing)
  {
    var vars: seq<Value> := [];
    var i := 0;
    while i < |args|
      invariant 0 <= i <= |args|
      invariant vars == CollectVars(args[..i], phrase)
    {
      assert args[..i + 1][..i] == args[..i];
      vars := AddContribution(vars, args[i], phrase);
      i := i + 1;
    }
    assert args[..i] == args;
    if CountPlaceholders(text) != |vars| {
      return Raised(MismatchError(text, vars));
    }
    if enclosing.None? {
      return Raised(UnboundEnclosed);
    }
    var enclosed := EncloseAll(vars, enclosing.value);
    r := Format(text, enclosed);
  }

  /** One pass of the first loop of `format_message`: the values `arg` adds to `vars_to_format`. */
  method AddContribution(vars: seq<Value>, arg: Value, phrase: string) returns (vars': seq<Value>)
    ensures vars' == vars + Contribution(arg, phrase)
  {
    vars' := vars;
    if arg.PyList? {
      if !Truthy(arg) {
        vars' := vars' + [PyStr(phrase)];
      }
      var head := vars';
      var j := 0;
      while j < |arg.items|
        invariant 0 <= j <= |arg.items|
        invariant head == vars + (if |arg.items| == 0 then [PyStr(phrase)] else [])
        invariant vars' == head + seq(j, k requires 0 <= k < j => Filled(arg.items[k], phrase))
      {
        var item := arg.items[j];
        if item.PyNone? || (!Truthy(item) && !IsIntInstance(item)) {
          vars' := vars' + [PyStr(phrase)];
        } else {
          vars' := vars' + [item];
        }
        j := j + 1;
      }
    } else if arg.PyNone? || (!Truthy(arg) && !IsIntInstance(arg)) {
      vars' := vars' + [PyStr(phrase)];
    } else {
      vars' := vars' + [arg];
    }
  }

  /** The second loop of `format_message`, building `enclosed_vars_to_format`. */
  method EncloseAll(vars: seq<Value>, c: string) returns (enclosed: seq<string>)
    ensures enclosed == Enclosed(vars, c)
  {
    enclosed := [];
    var k := 0;
    while k < |vars|
      invariant 0 <= k <= |vars|
      invariant enclosed == Enclosed(vars[..k], c)
    {
      enclosed := enclosed + [c + Str(vars[k]) + c];
      k := k + 1;
    }
    assert vars[..k] == vars;
  }

  /** Collecting the values of two argument lists one after the other. */
  lemma {:induction false} CollectVarsAppend(a: seq<Value>, b: seq<Value>, phrase: string)
    ensures CollectVars(a + b, phrase) == CollectVars(a, phrase) + CollectVars(b, phrase)
    decreases |b|
  {
    if |b| == 0 {
      assert a + b == a;
    } else {
      var init, last := b[..|b| - 1], b[|b| - 1];
      assert CollectVars(a + b, phrase) == CollectVars(a + init, phrase) + Contribution(last, phrase) by {
        assert (a + b)[..|a + b| - 1] == a + init;
        assert (a + b)[|a + b| - 1] == last;
      }
      CollectVarsAppend(a, init, phrase);
      assert CollectVars(b, phrase) == CollectVars(init, phrase) + Contribution(last, phrase);
      assert CollectVars(a, phrase) + CollectVars(init, phrase) + Contribution(last, phrase)
          == CollectVars(a, phrase) + (CollectVars(init, phrase) + Contribution(last, phrase));
    }
  }

  /**
   * Every argument adds its width in values, and no collected value is a
   * falsy non-integer other than the phrase: None, "", [] and empty containers
   * are replaced, while 0 and False are kept.
   */
  lemma {:induction false} CollectVarsShape(args: seq<Value>, phrase: string)
    ensures |CollectVars(args, phrase)| == TotalWidth(args)
    ensures forall v :: v in CollectVars(args, phrase) ==> v == PyStr(phrase) || Truthy(v) || IsIntInstance(v)
    ensures forall i :: 0 <= i < |args| && IsIntInstance(args[i]) ==> Contribution(args[i], phrase) == [args[i]]
    decreases |args|
  {
    if |args| > 0 {
      CollectVarsShape(args[..|args| - 1], phrase);
      var arg := args[|args| - 1];
      var c := Contribution(arg, phrase);
      assert |c| == Width(arg);
      forall v | v in c ensures v == PyStr(phrase) || Truthy(v) || IsIntInstance(v) {
        if arg.PyList? && |arg.items| > 0 {
          var k :| 0 <= k < |c| && c[k] == v;
          assert v == Filled(arg.items[k], phrase);
        }
      }
    }
  }

  /**
   * Every error `format_message` raises is an `Exception` with one argument:
   * the count mismatch, the unbound variable, or a missing replacement index.
   */
  lemma FormatMessageErrors(text: string, args: seq<Value>, phrase: string, enclosing: Option<string>)
    requires PlainTemplate(text)
    ensures var r := FormatMessageSpec(text, args, phrase, enclosing);
      r.Raised? ==> IsException(r.exc.cls) && |r.exc.args| == 1
  {
    var vars := CollectVars(args, phrase);
    if CountPlaceholders(text) != |vars| {
      assert IsException("ValueError") by { RaisedClasses(); }
    } else if enclosing.None? {
      assert IsException("UnboundLocalError") by { RaisedClasses(); }
    } else {
      assert IsException("IndexError") by { RaisedClasses(); }
    }
  }

  /**
   * Arguments that are not lists contribute one value each, in their own
   * position: the argument itself when it is truthy or an `int` instance (so
   * 0 and False are kept), and the phrase otherwise.
   */
  lemma {:induction false} CollectVarsScalars(args: seq<Value>, phrase: string)
    requires forall i :: 0 <= i < |args| ==> !args[i].PyList?
    ensures |CollectVars(args, phrase)| == |args|
    ensures forall i :: 0 <= i < |args| ==>
              CollectVars(args, phrase)[i] == (if Truthy(args[i]) || IsIntInstance(args[i]) then args[i] else PyStr(phrase))
    decreases |args|
  {
    if |args| > 0 {
      CollectVarsScalars(args[..|args| - 1], phrase);
    }
  }

  /**
   * A count mismatch raises ValueError, and only then is ValueError raised;
   * with an enclosing character every other call returns, and without one
   * every other call reads the unbound `enclosed_vars_to_format`.
   */
  lemma CountCheck(text: string, args: seq<Value>, phrase: string, enclosing: Option<string>)
    requires PlainTemplate(text)
    ensures var r := FormatMessageSpec(text, args, phrase, enclosing);
      && (r.Raised? && r.exc.cls == "ValueError" <==> CountPlaceholders(text) != |CollectVars(args, phrase)|)
      && (enclosing.Some? ==> (r.Ok? <==> CountPlaceholders(text) == |CollectVars(args, phrase)|))
      && (enclosing.None? ==> r.Raised?)
      && (enclosing.None? && CountPlaceholders(text) == |CollectVars(args, phrase)| ==> r == Raised(UnboundEnclosed))
  {
    var vars := CollectVars(args, phrase);
    var r := FormatMessageSpec(text, args, phrase, enclosing);
    if CountPlaceholders(text) != |vars| {
      assert r == Raised(MismatchError(text, vars));
    } else if enclosing.None? {
      assert r == Raised(UnboundEnclosed);
      assert UnboundEnclosed.cls != "ValueError";
    } else {
      assert r == Format(text, Enclosed(vars, enclosing.value));
    }
  }

  /**
   * For a template of brace-free pieces and matching values, the i-th field
   * is replaced by the i-th value between enclosing characters.
   */
  lemma FormatMessageFills(pieces: seq<string>, args: seq<Value>, phrase: string, c: string)
    requires |pieces| >= 1 && forall i :: 0 <= i < |pieces| ==> NoBraces(pieces[i])
    requires |CollectVars(args, phrase)| == |pieces| - 1
    ensures PlainTemplate(Template(pieces))
    ensures FormatMessageSpec(Template(pieces), args, phrase, Some(c))
            == Ok(Interleave(pieces, Enclosed(CollectVars(args, phrase), c)))
  {
    var vals := Enclosed(CollectVars(args, phrase), c);
    FormatInterleave(pieces, vals, 0);
    assert vals[0..|pieces| - 1] == vals;
  }

  /** `format_message(before + "{}", [None])` gives `before` followed by the phrase in backticks. */
  lemma NoneBecomesPhrase(before: string, phrase: string)
    requires NoBraces(before)
    ensures PlainTemplate(before + "{}")
    ensures FormatMessageSpec(before + "{}", [PyList([PyNone])], phrase, Some("`")) == Ok(before + "`" + phrase + "`")
  {
    var text := before + "{}";
    assert text == before + "{}" + "";
    var vals := ["`" + phrase + "`"];
    OneField(before, "", vals);
    var arg := PyList([PyNone]);
    assert Contribution(arg, phrase) == [PyStr(phrase)];
    assert [arg][..0] == [];
    var vars := CollectVars([arg], phrase);
    assert vars == CollectVars([], phrase) + Contribution(arg, phrase);
    assert vars == [PyStr(phrase)];
    assert Enclosed(vars, "`") == vals;
    assert before + vals[0] + "" == before + "`" + phrase + "`";
  }

  /** A template with one field, filled with the one value its argument contributes. */
  lemma OneValue(before: string, after: string, v: Value, phrase: string, c: string, w: Value)
    requires NoBraces(before) && NoBraces(after)
    requires Contribution(v, phrase) == [w]
    ensures PlainTemplate(before + "{}" + after)
    ensures FormatMessageSpec(before + "{}" + after, [v], phrase, Some(c)) == Ok(before + c + Str(w) + c + after)
  {
    var vals := [c + Str(w) + c];
    OneField(before, after, vals);
    assert Enclosed(CollectVars([v], phrase), c) == vals by {
      assert [v][..0] == [];
      assert CollectVars([v], phrase) == CollectVars([], phrase) + Contribution(v, phrase);
      assert CollectVars([v], phrase) == [w];
    }
    assert before + vals[0] + after == before + c + Str(w) + c + after;
  }

  /** A template without fields and no arguments is returned as it is. */
  lemma NoValues(text: string, phrase: string, c: string)
    requires NoBraces(text)
    ensures PlainTemplate(text)
    ensures FormatMessageSpec(text, [], phrase, Some(c)) == Ok(text)
  {
    NoFields(text, []);
  }
}
