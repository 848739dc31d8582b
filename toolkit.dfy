/**
 * The older helpers of `warepy.core.toolkit`, decorated with `logger.catch`:
 * the same path joining, loader dispatch and URI normalisation, and a
 * `format_message` that takes one value or a list, maps every falsy value to
 * the phrase, adds no enclosing characters and does not check the count.
 */
module Toolkit {
  import opened Wrappers
  import opened PyText
  import opened PyValues
  import opened Exceptions
  import opened StrFormat
  import opened Catching
  import opened Paths
  import opened MessageFormat
  import opened Messages
  import Warepy

  const ModuleName := "warepy.core.toolkit"
  const DefaultPhrase := "None"

  function Node(funcName: string): string {
    NodeInfo(ModuleName, funcName)
  }

  /** `join_paths` under `logger.catch`: the same joining as the package version, signed by this module. */
  function JoinPathsLogged(args: seq<string>): (r: Traced<string>)
    ensures JoinPathsSpec(args).Ok? ==> r == Traced(JoinPathsSpec(args), [])
    ensures JoinPathsSpec(args).Raised? ==>
              r == Traced(Raised(Exc("IndexError", [Node("join_paths"), "string index out of range"])),
                          [Record(Node("join_paths"), "IndexError: " + "string index out of range")])
  {
    var body := Traced(JoinPathsSpec(args), []);
    if body.outcome.Raised? then
      CatchFresh<string>(Node("join_paths"), StringIndexError);
      StringIndexErrorRecord();
      CatchIn(Node("join_paths"), body)
    else CatchIn(Node("join_paths"), body)
  }

  /** Both versions of `join_paths` return the same path, or both fail the same way. */
  lemma JoinPathsAgree(args: seq<string>)
    ensures JoinPathsLogged(args).outcome.Ok? <==> Warepy.JoinPathsLogged(args).outcome.Ok?
    ensures JoinPathsLogged(args).outcome.Ok? ==> JoinPathsLogged(args) == Warepy.JoinPathsLogged(args)
    ensures JoinPathsLogged(args).outcome.Raised? ==>
              JoinPathsLogged(args).outcome.exc.args[1] == Warepy.JoinPathsLogged(args).outcome.exc.args[1]
  {
  }

  /** `if not isinstance(vars, list): vars = [vars]`. */
  function Items(vars: Value): (items: seq<Value>)
    ensures vars.PyList? ==> items == vars.items
    ensures !vars.PyList? ==> items == [vars]
  {
    if vars.PyList? then vars.items else [vars]
  }

  /** One entry of `vars_for_format`, as `str.format` shows it. */
  function OldFilled(v: Value, phrase: string): string {
    if Truthy(v) then Str(v) else phrase
  }

  /** What the older `format_message(text, vars, no_arg_phrase)` returns or raises. */
  function OldFormatMessageSpec(text: string, vars: Value, phrase: string): Outcome<string>
    requires PlainTemplate(text)
  {
    var items := Items(vars);
    Format(text, seq(|items|, k requires 0 <= k < |items| => OldFilled(items[k], phrase)))
  }

  /** The loop of the older `format_message`, building `vars_for_format`. */
  method OldFormatMessage(text: string, vars: Value, phrase: string) returns (r: Outcome<string>)
    requires PlainTemplate(text)
    ensures r == OldFormatMessageSpec(text, vars, phrase)
  {
    var items := if vars.PyList? then vars.items else [vars];
    var filled: seq<string> := [];
    var i := 0;
    while i < |items|
      invariant 0 <= i <= |items|
      invariant |filled| == i
      invariant forall k :: 0 <= k < i ==> filled[k] == OldFilled(items[k], phrase)
    {
      if Truthy(items[i]) {
        filled := filled + [Str(items[i])];
      } else {
        filled := filled + [phrase];
      }
      i := i + 1;
    }
    assert filled == seq(|items|, k requires 0 <= k < |items| => OldFilled(items[k], phrase));
    r := Format(text, filled);
  }

  /**
   * No count check: the call succeeds exactly when there are at least as many
   * values as fields, surplus values are ignored, and too few raise the
   * IndexError of `str.format` for the first missing field.
   */
  lemma OldFormatCount(text: string, vars: Value, phrase: string)
    requires PlainTemplate(text)
    ensures OldFormatMessageSpec(text, vars, phrase).Ok? <==> CountPlaceholders(text) <= |Items(vars)|
    ensures OldFormatMessageSpec(text, vars, phrase).Raised? ==>
              OldFormatMessageSpec(text, vars, phrase).exc == ReplacementIndexError(|Items(vars)|)
  {
  }

  /** A text without fields comes back unchanged, whatever the values. */
  lemma OldFieldlessText(text: string, vars: Value, phrase: string)
    requires NoBraces(text)
    ensures PlainTemplate(text)
    ensures OldFormatMessageSpec(text, vars, phrase) == Ok(text)
  {
    var items := Items(vars);
    NoFields(text, seq(|items|, k requires 0 <= k < |items| => OldFilled(items[k], phrase)));
  }

  /** A one-field text shows the first value, or the phrase when that value is falsy. */
  lemma OldOneField(before: string, after: string, vars: Value, phrase: string)
    requires NoBraces(before) && NoBraces(after) && |Items(vars)| >= 1
    ensures PlainTemplate(before + "{}" + after)
    ensures OldFormatMessageSpec(before + "{}" + after, vars, phrase) ==
              Ok(before + (if Truthy(Items(vars)[0]) then Str(Items(vars)[0]) else phrase) + after)
  {
    var items := Items(vars);
    OneField(before, after, seq(|items|, k requires 0 <= k < |items| => OldFilled(items[k], phrase)));
  }

  /**
   * The two versions part on `0`: the older one shows the phrase, the newer
   * one keeps the integer, enclosed.
   */
  lemma ZeroContrast(phrase: string)
    ensures PlainTemplate("{}")
    ensures OldFormatMessageSpec("{}", PyInt(0), phrase) == Ok(phrase)
    ensures FormatMessageSpec("{}", [PyInt(0)], phrase, Some("`")) == Ok("`0`")
  {
    OldOneField("", "", PyInt(0), phrase);
    assert "" + "{}" + "" == "{}";
    assert "" + phrase + "" == phrase;
    assert Contribution(PyInt(0), phrase) == [PyInt(0)];
    OneValue("", "", PyInt(0), phrase, "`", PyInt(0));
    assert IntToString(0) == "0";
    assert Str(PyInt(0)) == "0";
    assert "" + "`" + "0" + "`" + "" == "`0`";
  }

  /** `format_message` under `logger.catch`. */
  function OldFormatMessageLogged(text: string, vars: Value, phrase: string): (r: Traced<string>)
    requires PlainTemplate(text)
    ensures OldFormatMessageSpec(text, vars, phrase).Ok? ==> r == Traced(OldFormatMessageSpec(text, vars, phrase), [])
    ensures r.outcome.Raised? ==> Signed(r.outcome.exc) && |r.log| == 1 && r.outcome.exc.args[0] == Node("format_message")
  {
    CatchIn(Node("format_message"), Traced(OldFormatMessageSpec(text, vars, phrase), []))
  }

  /** How the older `format_message` shows a string value with the default phrase. */
  function Shown(s: string): string {
    if s == "" then DefaultPhrase else s
  }

  lemma ShowString(before: string, after: string, s: string)
    requires NoBraces(before) && NoBraces(after)
    ensures PlainTemplate(before + "{}" + after)
    ensures OldFormatMessageLogged(before + "{}" + after, PyStr(s), DefaultPhrase) == Traced(Ok(before + Shown(s) + after), [])
  {
    OldOneField(before, after, PyStr(s), DefaultPhrase);
  }

  /**
   * The loader dispatch of the older `load_yaml`: the four names are
   * accepted, any other raises a ValueError that names it, logged once.
   */
  function LoadYamlLoader(loader: string): (r: Traced<Warepy.YamlLoader>)
    ensures r.outcome.Ok? <==> loader in {"safe", "full", "base", "unsafe"}
    ensures r.outcome.Ok? ==> r.log == [] && Warepy.LoaderName(r.outcome.value) == loader
    ensures r.outcome.Raised? ==>
              var msg := RecognizeLoader + Shown(loader) + ".";
              && r.outcome.exc == Exc("ValueError", [Node("load_yaml"), msg])
              && r.log == [Record(Node("load_yaml"), "ValueError: " + msg)]
  {
    match Warepy.LoaderNamed(loader)
    case Some(l) => Traced(Ok(l), [])
    case None =>
      BraceFree();
      ShowString(RecognizeLoader, ".", loader);
      var msg := OldFormatMessageLogged(RecognizeLoader + "{}" + ".", PyStr(loader), DefaultPhrase);
      var m := RecognizeLoader + Shown(loader) + ".";
      assert "ValueError" + ": " + m == "ValueError: " + m;
      CatchIn(Node("load_yaml"), RaiseMessage("ValueError", msg))
  }

  /** The messages the older `normalize_db_uri` raises for a scheme it does not serve. */
  lemma SchemeMessages(dbName: string)
    ensures PlainTemplate(PostgresUnsupported)
    ensures OldFormatMessageLogged(PostgresUnsupported, PyNone, DefaultPhrase) == Traced(Ok(PostgresUnsupported), [])
    ensures PlainTemplate(RecognizeDatabase + "{}")
    ensures OldFormatMessageLogged(RecognizeDatabase + "{}", PyStr(dbName), DefaultPhrase)
              == Traced(Ok(RecognizeDatabase + Shown(dbName)), [])
  {
    BraceFree();
    OldFieldlessText(PostgresUnsupported, PyNone, DefaultPhrase);
    ShowString(RecognizeDatabase, "", dbName);
    assert RecognizeDatabase + "{}" + "" == RecognizeDatabase + "{}";
    assert RecognizeDatabase + Shown(dbName) + "" == RecognizeDatabase + Shown(dbName);
  }

  /** The error every scheme other than sqlite ends in. */
  function SchemeError(name: string): string {
    if name == "postgresql" then PostgresUnsupported else RecognizeDatabase + Shown(name)
  }

  /** The body of the older `normalize_db_uri`. */
  function NormalizeDbUriBody(modulePath: string, raw: string): (r: Traced<string>)
    ensures r.outcome.Ok? ==> r.log == []
    ensures r.outcome.Raised? ==> |r.log| <= 1 && (Signed(r.outcome.exc) <==> |r.log| == 1)
    ensures r.outcome.Raised? && !Signed(r.outcome.exc) ==> |r.outcome.exc.args| == 1
  {
    if Contains(raw, ":memory:") then Traced(Ok("sqlite:///:memory:"), [])
    else
      var parts := Split(raw, "://");
      if |parts| < 2 then Traced(Raised(Warepy.UnpackTooFew), [])
      else if |parts| > 2 then Traced(Raised(Warepy.UnpackTooMany), [])
      else
        var dbName, relPath := parts[0], parts[1];
        SchemeMessages(dbName);
        if dbName == "sqlite" then
          var joined := JoinPathsLogged([modulePath, relPath]);
          match joined.outcome
          case Ok(p) => Traced(Ok(dbName + ":///" + p), [])
          case Raised(e) => joined
        else if dbName == "postgresql" then
          RaiseMessage("ValueError", OldFormatMessageLogged(PostgresUnsupported, PyNone, DefaultPhrase))
        else
          RaiseMessage("ValueError", OldFormatMessageLogged(RecognizeDatabase + "{}", PyStr(dbName), DefaultPhrase))
  }

  /** The older `normalize_db_uri` under `logger.catch`. */
  function NormalizeDbUri(modulePath: string, raw: string): (r: Traced<string>)
    ensures Contains(raw, ":memory:") ==> r == Traced(Ok("sqlite:///:memory:"), [])
    ensures r.outcome.Ok? ==> r.log == [] && StartsWith(r.outcome.value, "sqlite:///")
    ensures r.outcome.Raised? ==> Signed(r.outcome.exc) && |r.log| == 1
  {
    RaisedClasses();
    var r := CatchIn(Node("normalize_db_uri"), NormalizeDbUriBody(modulePath, raw));
    if r.outcome.Ok? && !Contains(raw, ":memory:") then
      var parts := Split(raw, "://");
      var joined := JoinPathsSpec([modulePath, parts[1]]).value;
      Warepy.SqliteUri(joined);
      assert r.outcome.value == "sqlite" + ":///" + joined;
      r
    else r
  }

  lemma SqliteBody(modulePath: string, rel: string)
    requires !Contains("sqlite" + "://" + rel, ":memory:") && !Contains(rel, "://")
    ensures NormalizeDbUriBody(modulePath, "sqlite" + "://" + rel) ==
              match JoinPathsSpec([modulePath, rel])
              case Ok(p) => Traced(Ok("sqlite" + ":///" + p), [])
              case Raised(_) => JoinPathsLogged([modulePath, rel])
  {
    Warepy.SqliteScheme();
    Warepy.SchemeSplit("sqlite", rel);
  }

  /** For a sqlite URI the decorator lets the body's result through unchanged. */
  lemma SqliteSettled(modulePath: string, rel: string)
    requires !Contains("sqlite" + "://" + rel, ":memory:") && !Contains(rel, "://")
    ensures NormalizeDbUri(modulePath, "sqlite" + "://" + rel) == NormalizeDbUriBody(modulePath, "sqlite" + "://" + rel)
  {
    var uri := "sqlite" + "://" + rel;
    var body := NormalizeDbUriBody(modulePath, uri);
    assert Settled(body) by {
      SqliteBody(modulePath, rel);
    }
    assert CatchIn(Node("normalize_db_uri"), body) == body;
  }

  /** A sqlite URI becomes `sqlite:///` and the joined path: four slashes, as in the package version. */
  lemma NormalizeSqlite(modulePath: string, rel: string)
    requires !Contains("sqlite" + "://" + rel, ":memory:") && !Contains(rel, "://")
    ensures var r := NormalizeDbUri(modulePath, "sqlite" + "://" + rel);
            match JoinPathsSpec([modulePath, rel])
            case Ok(p) => r == Traced(Ok("sqlite:///" + p), []) && StartsWith(r.outcome.value, "sqlite:////")
            case Raised(_) => r == JoinPathsLogged([modulePath, rel])
  {
    SqliteSettled(modulePath, rel);
    SqliteBody(modulePath, rel);
    match JoinPathsSpec([modulePath, rel])
    case Ok(p) =>
      JoinPathsAbsolute([modulePath, rel]);
      Warepy.SqliteUri(p);
    case Raised(_) =>
  }

  lemma OtherSchemeBody(modulePath: string, name: string, rel: string)
    requires !Contains(name + "://" + rel, ":memory:") && !Contains(name, "://") && !Contains(rel, "://")
    requires name != "sqlite"
    ensures NormalizeDbUriBody(modulePath, name + "://" + rel) == Traced(Raised(Error("ValueError", SchemeError(name))), [])
  {
    Warepy.SchemeSplit(name, rel);
    SchemeMessages(name);
  }

  /** Any other scheme raises a ValueError, signed by `normalize_db_uri`; the message has no backticks. */
  lemma NormalizeOtherScheme(modulePath: string, name: string, rel: string)
    requires !Contains(name + "://" + rel, ":memory:") && !Contains(name, "://") && !Contains(rel, "://")
    requires name != "sqlite"
    ensures NormalizeDbUri(modulePath, name + "://" + rel) ==
              Traced(Raised(Exc("ValueError", [Node("normalize_db_uri"), SchemeError(name)])),
                     [Record(Node("normalize_db_uri"), "ValueError: " + SchemeError(name))])
  {
    var m := SchemeError(name);
    OtherSchemeBody(modulePath, name, rel);
    assert "ValueError" + ": " + m == "ValueError: " + m;
  }

  /** The failure of the older `get_or_error([])`, raised inside `format_message` for its one field. */
  const EmptyListFailure := Exc("IndexError", [Node("format_message"), ReplacementIndexError(0).args[0]])

  lemma EmptyListMessage()
    ensures PlainTemplate(RequestedEmpty + "{}" + ".")
    ensures var r := OldFormatMessageLogged(RequestedEmpty + "{}" + ".", PyList([]), DefaultPhrase);
            && r.outcome == Raised(EmptyListFailure)
            && r.log == [Record(Node("format_message"), "IndexError: " + ReplacementIndexError(0).args[0])]
  {
    BraceFree();
    OneField(RequestedEmpty, ".", []);
    OldFormatCount(RequestedEmpty + "{}" + ".", PyList([]), DefaultPhrase);
    var m := ReplacementIndexError(0).args[0];
    assert "IndexError" + ": " + m == "IndexError: " + m;
  }

  /** The body of the older `get_or_error`, calling the decorated `format_message`. */
  function GetOrErrorBody(v: Value): (r: Traced<Value>)
    ensures r.outcome.Ok? <==> !v.PyNone? && !Warepy.EmptyContainer(v)
    ensures r.outcome.Ok? ==> r == Traced(Ok(v), [])
    ensures v.PyNone? ==> r == Traced(Raised(Error("TypeError", RequestedNone)), [])
    ensures v.PyCollection? && v.size == 0 ==> r == Traced(Raised(Error("TypeError", RequestedEmpty + "None.")), [])
    ensures v == PyList([]) ==> r.outcome == Raised(EmptyListFailure) && |r.log| == 1
  {
    BraceFree();
    if v.PyNone? then
      OldFieldlessText(RequestedNone, PyNone, DefaultPhrase);
      RaiseMessage("TypeError", OldFormatMessageLogged(RequestedNone, PyNone, DefaultPhrase))
    else if v.PyCollection? && v.size == 0 then
      EmptyCollectionMessage(v);
      RaiseMessage("TypeError", OldFormatMessageLogged(RequestedEmpty + "{}" + ".", v, DefaultPhrase))
    else if v == PyList([]) then
      EmptyListMessage();
      RaiseMessage("TypeError", OldFormatMessageLogged(RequestedEmpty + "{}" + ".", v, DefaultPhrase))
    else Traced(Ok(v), [])
  }

  lemma EmptyCollectionMessage(v: Value)
    requires v.PyCollection? && v.size == 0
    ensures PlainTemplate(RequestedEmpty + "{}" + ".")
    ensures OldFormatMessageLogged(RequestedEmpty + "{}" + ".", v, DefaultPhrase) == Traced(Ok(RequestedEmpty + "None."), [])
  {
    BraceFree();
    OldOneField(RequestedEmpty, ".", v, DefaultPhrase);
    assert RequestedEmpty + DefaultPhrase + "." == RequestedEmpty + "None.";
  }

  /**
   * The older `get_or_error` under `logger.catch`: None and an empty dict,
   * tuple or set raise a TypeError; an empty list fails inside
   * `format_message` with an IndexError instead; anything else comes back.
   */
  function GetOrError(v: Value): (r: Traced<Value>)
    ensures r.outcome.Ok? <==> !v.PyNone? && !Warepy.EmptyContainer(v)
    ensures r.outcome.Ok? ==> r.outcome.value == v && r.log == []
    ensures v.PyNone? ==> r.outcome.exc == Exc("TypeError", [Node("get_or_error"), RequestedNone]) && |r.log| == 1
    ensures v.PyCollection? && v.size == 0 ==>
              r.outcome.exc == Exc("TypeError", [Node("get_or_error"), RequestedEmpty + "None."]) && |r.log| == 1
    ensures v == PyList([]) ==> r.outcome == Raised(EmptyListFailure) && |r.log| == 1
  {
    CatchIn(Node("get_or_error"), GetOrErrorBody(v))
  }
}
