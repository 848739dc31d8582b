/**
 * Python's `str.count("{}")` and `str.format(*args)` for templates whose only
 * braces are automatically numbered `{}` fields.
 */
module StrFormat {
  import opened Exceptions
  import opened PyText

  predicate NoBraces(s: string) {
    '{' !in s && '}' !in s
  }

  lemma NoBracesConcat(a: string, b: string)
    requires NoBraces(a) && NoBraces(b)
    ensures NoBraces(a + b)
  {
  }

  /** Every brace of `text` belongs to a `{}` field. */
  predicate PlainTemplate(text: string)
    decreases |text|
  {
    if |text| == 0 then true
    else if text[0] == '{' then |text| >= 2 && text[1] == '}' && PlainTemplate(text[2..])
    else text[0] != '}' && PlainTemplate(text[1..])
  }

  /** Python's `text.count("{}")`: occurrences counted left to right without overlap. */
  function CountPlaceholders(text: string): nat
    decreases |text|
  {
    if |text| < 2 then 0
    else if text[0] == '{' && text[1] == '}' then 1 + CountPlaceholders(text[2..])
    else CountPlaceholders(text[1..])
  }

  /** The error `str.format` raises when field number `k` has no argument. */
  function ReplacementIndexError(k: nat): Exc {
    Error("IndexError", "Replacement index " + IntToString(k) + " out of range for positional args tuple")
  }

  /**
   * `text.format(*args)` once `k` fields have been filled: the next field takes
   * `args[k]`; surplus arguments are ignored and a missing one raises.
   */
  function FormatFrom(text: string, args: seq<string>, k: nat): (r: Outcome<string>)
    requires PlainTemplate(text) && k <= |args|
    ensures r.Ok? <==> k + CountPlaceholders(text) <= |args|
    ensures r.Raised? ==> r.exc == ReplacementIndexError(|args|)
    decreases |text|
  {
    if |text| == 0 then Ok("")
    else if text[0] == '{' then
      if k < |args| then
        match FormatFrom(text[2..], args, k + 1)
        case Ok(rest) => Ok(args[k] + rest)
        case Raised(e) => Raised(e)
      else Raised(ReplacementIndexError(k))
    else
      match FormatFrom(text[1..], args, k)
      case Ok(rest) => Ok([text[0]] + rest)
      case Raised(e) => Raised(e)
  }

  /** Python's `text.format(*args)`. */
  function Format(text: string, args: seq<string>): (r: Outcome<string>)
    requires PlainTemplate(text)
    ensures r.Ok? <==> CountPlaceholders(text) <= |args|
  {
    FormatFrom(text, args, 0)
  }

  /** A formatting outcome with `p` put in front of the text it returns. */
  function Prefixed(p: string, o: Outcome<string>): Outcome<string> {
    match o
    case Ok(s) => Ok(p + s)
    case Raised(e) => Raised(e)
  }

  lemma PrefixedTwice(a: string, b: string, o: Outcome<string>)
    ensures Prefixed(a, Prefixed(b, o)) == Prefixed(a + b, o)
  {
    if o.Ok? {
      assert a + (b + o.value) == (a + b) + o.value;
    }
  }

  /** `pieces[0] + fills[0] + pieces[1] + ... + fills[n-1] + pieces[n]`. */
  function Interleave(pieces: seq<string>, fills: seq<string>): string
    requires |pieces| == |fills| + 1
  {
    if |fills| == 0 then pieces[0] else pieces[0] + fills[0] + Interleave(pieces[1..], fills[1..])
  }

  /** `pieces[0] + "{}" + pieces[1] + ... + "{}" + pieces[n]`. */
  function Template(pieces: seq<string>): string
    requires |pieces| >= 1
  {
    if |pieces| == 1 then pieces[0] else pieces[0] + ("{}" + Template(pieces[1..]))
  }

  lemma BraceFreeTail(p: string)
    requires NoBraces(p) && |p| > 0
    ensures NoBraces(p[1..]) && p[0] != '{' && p[0] != '}'
  {
    assert p[0] in p;
    forall c | c in p[1..] ensures c in p { }
  }

  /** A character other than a brace adds no field. */
  lemma PlainStepCount(c: char, rest: string)
    requires c != '{' && c != '}' && PlainTemplate(rest)
    ensures PlainTemplate([c] + rest)
    ensures CountPlaceholders([c] + rest) == CountPlaceholders(rest)
  {
    var text := [c] + rest;
    assert text[1..] == rest;
    assert text[0] == c;
  }

  /** A character other than a brace adds no field and is copied through by `format`. */
  lemma PlainStep(c: char, rest: string, args: seq<string>, k: nat)
    requires c != '{' && c != '}' && PlainTemplate(rest) && k <= |args|
    ensures PlainTemplate([c] + rest)
    ensures FormatFrom([c] + rest, args, k) == Prefixed([c], FormatFrom(rest, args, k))
  {
    var text := [c] + rest;
    assert text[1..] == rest;
    assert text[0] == c;
  }

  /** A `{}` field counts once. */
  lemma FieldCount(rest: string)
    requires PlainTemplate(rest)
    ensures PlainTemplate("{}" + rest)
    ensures CountPlaceholders("{}" + rest) == 1 + CountPlaceholders(rest)
  {
    var text := "{}" + rest;
    assert text[2..] == rest;
    assert text[0] == '{' && text[1] == '}';
  }

  /** A `{}` field counts once and takes the next argument. */
  lemma FieldStep(rest: string, args: seq<string>, k: nat)
    requires PlainTemplate(rest) && k < |args|
    ensures PlainTemplate("{}" + rest)
    ensures FormatFrom("{}" + rest, args, k) == Prefixed(args[k], FormatFrom(rest, args, k + 1))
  {
    var text := "{}" + rest;
    assert text[2..] == rest;
    assert text[0] == '{' && text[1] == '}';
  }

  /** A brace-free prefix adds no field. */
  lemma {:induction false} BraceFreeCount(p: string, rest: string)
    requires NoBraces(p) && PlainTemplate(rest)
    ensures PlainTemplate(p + rest)
    ensures CountPlaceholders(p + rest) == CountPlaceholders(rest)
    decreases |p|
  {
    if |p| == 0 {
      assert p + rest == rest;
    } else {
      var q := p[1..] + rest;
      BraceFreeTail(p);
      BraceFreeCount(p[1..], rest);
      PlainStepCount(p[0], q);
      assert p + rest == [p[0]] + q;
    }
  }

  /** A brace-free prefix neither adds fields nor changes how the rest is filled. */
  lemma {:induction false} BraceFreePrefix(p: string, rest: string, args: seq<string>, k: nat)
    requires NoBraces(p) && PlainTemplate(rest) && k <= |args|
    ensures PlainTemplate(p + rest)
    ensures CountPlaceholders(p + rest) == CountPlaceholders(rest)
    ensures FormatFrom(p + rest, args, k) == Prefixed(p, FormatFrom(rest, args, k))
    decreases |p|
  {
    BraceFreeCount(p, rest);
    if |p| == 0 {
      assert p + rest == rest;
      var o := FormatFrom(rest, args, k);
      if o.Ok? {
        assert p + o.value == o.value;
      }
    } else {
      var q := p[1..] + rest;
      BraceFreeTail(p);
      BraceFreePrefix(p[1..], rest, args, k);
      assert p + rest == [p[0]] + q;
      PlainStep(p[0], q, args, k);
      PrefixedTwice([p[0]], p[1..], FormatFrom(rest, args, k));
      assert [p[0]] + p[1..] == p;
    }
  }

  /** Brace-free pieces joined by `n` fields form a template with exactly `n` fields. */
  lemma {:induction false} InterleaveTemplate(pieces: seq<string>)
    requires |pieces| >= 1
    requires forall i :: 0 <= i < |pieces| ==> NoBraces(pieces[i])
    ensures PlainTemplate(Template(pieces))
    ensures CountPlaceholders(Template(pieces)) == |pieces| - 1
    decreases |pieces|
  {
    if |pieces| == 1 {
      BraceFreeCount(pieces[0], "");
      assert pieces[0] + "" == pieces[0];
    } else {
      var tail := Template(pieces[1..]);
      InterleaveTemplate(pieces[1..]);
      FieldCount(tail);
      BraceFreeCount(pieces[0], "{}" + tail);
    }
  }

  /** A brace-free piece alone formats to itself. */
  lemma PieceOnly(p: string, args: seq<string>, k: nat)
    requires NoBraces(p) && k <= |args|
    ensures PlainTemplate(p) && FormatFrom(p, args, k) == Ok(p)
  {
    BraceFreePrefix(p, "", args, k);
    assert p + "" == p;
  }

  /** A brace-free piece, a field, then a template that formats to `filled`. */
  lemma PieceThenField(p: string, tail: string, args: seq<string>, k: nat, filled: string)
    requires NoBraces(p) && PlainTemplate(tail) && k < |args|
    requires FormatFrom(tail, args, k + 1) == Ok(filled)
    ensures PlainTemplate(p + ("{}" + tail))
    ensures FormatFrom(p + ("{}" + tail), args, k) == Ok(p + (args[k] + filled))
  {
    FieldStep(tail, args, k);
    BraceFreePrefix(p, "{}" + tail, args, k);
  }

  /** The pieces with `args[k]`, `args[k + 1]`, ... between them. */
  function FillFrom(pieces: seq<string>, args: seq<string>, k: nat): string
    requires |pieces| >= 1 && k + |pieces| - 1 <= |args|
    decreases |pieces|
  {
    if |pieces| == 1 then pieces[0] else pieces[0] + (args[k] + FillFrom(pieces[1..], args, k + 1))
  }

  /** Filling from `k` is interleaving with the arguments from `k` on. */
  lemma {:induction false} FillInterleave(pieces: seq<string>, args: seq<string>, k: nat)
    requires |pieces| >= 1 && k + |pieces| - 1 <= |args|
    ensures FillFrom(pieces, args, k) == Interleave(pieces, args[k..k + |pieces| - 1])
    decreases |pieces|
  {
    if |pieces| > 1 {
      var n := |pieces| - 1;
      var fills := args[k..k + n];
      FillInterleave(pieces[1..], args, k + 1);
      assert fills[1..] == args[k + 1..k + n];
      assert Interleave(pieces, fills) == pieces[0] + fills[0] + Interleave(pieces[1..], fills[1..]);
    }
  }

  /**
   * Formatting a template made of brace-free pieces and `n` fields puts
   * `args[k]`, ..., `args[k + n - 1]` between the pieces, in order.
   */
  lemma {:induction false} FormatFill(pieces: seq<string>, args: seq<string>, k: nat)
    requires |pieces| >= 1 && k + |pieces| - 1 <= |args|
    requires forall i :: 0 <= i < |pieces| ==> NoBraces(pieces[i])
    ensures PlainTemplate(Template(pieces))
    ensures FormatFrom(Template(pieces), args, k) == Ok(FillFrom(pieces, args, k))
    decreases |pieces|
  {
    if |pieces| == 1 {
      PieceOnly(pieces[0], args, k);
    } else {
      var tail := pieces[1..];
      assert PlainTemplate(Template(tail)) && FormatFrom(Template(tail), args, k + 1) == Ok(FillFrom(tail, args, k + 1)) by {
        assert forall i :: 0 <= i < |tail| ==> tail[i] == pieces[i + 1];
        FormatFill(tail, args, k + 1);
      }
      PieceThenField(pieces[0], Template(tail), args, k, FillFrom(tail, args, k + 1));
    }
  }

  /**
   * Formatting a template made of brace-free pieces and `n` fields puts
   * `args[k]`, ..., `args[k + n - 1]` between the pieces, in order.
   */
  lemma FormatInterleave(pieces: seq<string>, args: seq<string>, k: nat)
    requires |pieces| >= 1 && k + |pieces| - 1 <= |args|
    requires forall i :: 0 <= i < |pieces| ==> NoBraces(pieces[i])
    ensures PlainTemplate(Template(pieces))
    ensures CountPlaceholders(Template(pieces)) == |pieces| - 1
    ensures FormatFrom(Template(pieces), args, k) == Ok(Interleave(pieces, args[k..k + |pieces| - 1]))
  {
    InterleaveTemplate(pieces);
    FormatFill(pieces, args, k);
    FillInterleave(pieces, args, k);
  }

  /** The one-field template `before + "{}" + after`, as the helpers' messages use it. */
  lemma OneField(before: string, after: string, args: seq<string>)
    requires NoBraces(before) && NoBraces(after)
    ensures PlainTemplate(before + "{}" + after)
    ensures CountPlaceholders(before + "{}" + after) == 1
    ensures |args| >= 1 ==> Format(before + "{}" + after, args) == Ok(before + args[0] + after)
  {
    var pieces := [before, after];
    assert Template(pieces) == before + "{}" + after by {
      assert Template(pieces[1..]) == after;
    }
    FormatInterleave(pieces, if |args| >= 1 then args else ["{}"], 0);
    if |args| >= 1 {
      assert Interleave(pieces, args[0..1]) == before + args[0] + after by {
        assert Interleave(pieces[1..], args[0..1][1..]) == after;
      }
    }
  }

  /** A template without braces has no fields and formats to itself. */
  lemma NoFields(text: string, args: seq<string>)
    requires NoBraces(text)
    ensures PlainTemplate(text) && CountPlaceholders(text) == 0
    ensures Format(text, args) == Ok(text)
  {
    BraceFreePrefix(text, "", args, 0);
    assert text + "" == text;
  }
}
