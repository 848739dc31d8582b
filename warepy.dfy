/**
 * The helpers of the `warepy` package module that branch without looping:
 * `join_paths` and `format_message` as decorated with `log.catch`, the loader
 * dispatch of `load_yaml`, `normalize_db_uri` and `get_or_error`.
 */
module Warepy {
  import opened Wrappers
  import opened PyText
  import opened PyValues
  import opened Exceptions
  import opened StrFormat
  import opened Catching
  import opened Paths
  import opened MessageFormat
  import opened Messages

  const ModuleName := "warepy"
  const DefaultPhrase := "None"
  const Backtick := Some("`")

  function Node(funcName: string): string {
    NodeInfo(ModuleName, funcName)
  }

  /** The log record and signed error a failing `join_paths` leaves. */
  function JoinPathsFailure(): Traced<string> {
    Traced(Raised(Exc("IndexError", [Node("join_paths"), "string index out of range"])),
           [Record(Node("join_paths"), "IndexError: " + "string index out of range")])
  }

  /** `join_paths` under `log.catch`. */
  function JoinPathsLogged(args: seq<string>): (r: Traced<string>)
    ensures JoinPathsSpec(args).Ok? ==> r == Traced(JoinPathsSpec(args), [])
    ensures JoinPathsSpec(args).Raised? ==> r == JoinPathsFailure()
  {
    var body := Traced(JoinPathsSpec(args), []);
    if body.outcome.Raised? then
      CatchFresh<string>(Node("join_paths"), StringIndexError);
      StringIndexErrorRecord();
      CatchIn(Node("join_paths"), body)
    else CatchIn(Node("join_paths"), body)
  }

  /** `format_message` under `log.catch`. */
  function FormatMessageLogged(text: string, args: seq<Value>, phrase: string, enclosing: Option<string>): (r: Traced<string>)
    requires PlainTemplate(text)
    ensures FormatMessageSpec(text, args, phrase, enclosing).Ok? ==> r == Traced(FormatMessageSpec(text, args, phrase, enclosing), [])
    ensures r.outcome.Raised? ==> Signed(r.outcome.exc) && |r.log| == 1 && r.outcome.exc.args[0] == Node("format_message")
    ensures FormatMessageSpec(text, args, phrase, enclosing).Raised? ==>
              r.outcome.Raised? && r.outcome.exc.cls == FormatMessageSpec(text, args, phrase, enclosing).exc.cls
  {
    FormatMessageErrors(text, args, phrase, enclosing);
    CatchIn(Node("format_message"), Traced(FormatMessageSpec(text, args, phrase, enclosing), []))
  }

  datatype YamlLoader = SafeLoader | FullLoader | BaseLoader | UnsafeLoader

  function LoaderName(l: YamlLoader): string {
    match l
    case SafeLoader => "safe"
    case FullLoader => "full"
    case BaseLoader => "base"
    case UnsafeLoader => "unsafe"
  }

  /** The loader `load_yaml` picks for a name, if it knows the name. */
  function LoaderNamed(name: string): (r: Option<YamlLoader>)
    ensures r.Some? <==> name in {"safe", "full", "base", "unsafe"}
    ensures r.Some? ==> LoaderName(r.value) == name
    ensures forall l :: LoaderName(l) == name ==> r == Some(l)
  {
    if name == "safe" then Some(SafeLoader)
    else if name == "full" then Some(FullLoader)
    else if name == "base" then Some(BaseLoader)
    else if name == "unsafe" then Some(UnsafeLoader)
    else None
  }

  /** How `format_message` shows a string value with the default phrase. */
  function Shown(s: string): string {
    "`" + (if s == "" then DefaultPhrase else s) + "`"
  }

  lemma ShowString(before: string, after: string, s: string)
    requires NoBraces(before) && NoBraces(after)
    ensures PlainTemplate(before + "{}" + after)
    ensures FormatMessageSpec(before + "{}" + after, [PyStr(s)], DefaultPhrase, Backtick) == Ok(before + Shown(s) + after)
  {
    var w := Filled(PyStr(s), DefaultPhrase);
    OneValue(before, after, PyStr(s), DefaultPhrase, "`", w);
    assert before + "`" + Str(w) + "`" + after == before + Shown(s) + after;
  }

  /** The message `load_yaml` raises for a loader name it does not know. */
  lemma LoaderMessage(loader: string)
    ensures PlainTemplate(RecognizeLoader + "{}" + ".")
    ensures FormatMessageLogged(RecognizeLoader + "{}" + ".", [PyStr(loader)], DefaultPhrase, Backtick)
              == Traced(Ok(RecognizeLoader + Shown(loader) + "."), [])
  {
    BraceFree();
    ShowString(RecognizeLoader, ".", loader);
  }

  /**
   * The loader dispatch of `load_yaml` under `log.catch`: the four names are
   * accepted, any other raises a ValueError that names it, logged once.
   */
  function LoadYamlLoader(loader: string): (r: Traced<YamlLoader>)
    ensures r.outcome.Ok? <==> loader in {"safe", "full", "base", "unsafe"}
    ensures r.outcome.Ok? ==> r.log == [] && LoaderName(r.outcome.value) == loader
    ensures r.outcome.Raised? ==>
              var msg := RecognizeLoader + Shown(loader) + ".";
              && r.outcome.exc == Exc("ValueError", [Node("load_yaml"), msg])
              && r.log == [Record(Node("load_yaml"), "ValueError: " + msg)]
  {
    match LoaderNamed(loader)
    case Some(l) => Traced(Ok(l), [])
    case None =>
      LoaderMessage(loader);
      var msg := FormatMessageLogged(RecognizeLoader + "{}" + ".", [PyStr(loader)], DefaultPhrase, Backtick);
      var m := RecognizeLoader + Shown(loader) + ".";
      assert "ValueError" + ": " + m == "ValueError: " + m;
      CatchIn(Node("load_yaml"), RaiseMessage("ValueError", msg))
  }

  const UnpackTooFew := Error("ValueError", "not enough values to unpack (expected 2, got 1)")
  const UnpackTooMany := Error("ValueError", "too many values to unpack (expected 2)")

  /** The messages `normalize_db_uri` raises for a scheme it does not serve. */
  lemma SchemeMessages(dbName: string)
    ensures PlainTemplate(PostgresUnsupported)
    ensures FormatMessageLogged(PostgresUnsupported, [], DefaultPhrase, Backtick) == Traced(Ok(PostgresUnsupported), [])
    ensures PlainTemplate(RecognizeDatabase + "{}")
    ensures FormatMessageLogged(RecognizeDatabase + "{}", [PyStr(dbName)], DefaultPhrase, Backtick)
              == Traced(Ok(RecognizeDatabase + Shown(dbName)), [])
  {
    BraceFree();
    NoValues(PostgresUnsupported, DefaultPhrase, "`");
    ShowString(RecognizeDatabase, "", dbName);
    assert RecognizeDatabase + "{}" + "" == RecognizeDatabase + "{}";
    assert RecognizeDatabase + Shown(dbName) + "" == RecognizeDatabase + Shown(dbName);
  }

  /** The body of `normalize_db_uri`, calling the decorated `join_paths` and `format_message`. */
  function NormalizeDbUriBody(modulePath: string, raw: string): (r: Traced<string>)
    ensures r.outcome.Ok? ==> r.log == []
    ensures r.outcome.Raised? ==> |r.log| <= 1 && (Signed(r.outcome.exc) <==> |r.log| == 1)
    ensures r.outcome.Raised? && !Signed(r.outcome.exc) ==> |r.outcome.exc.args| == 1
  {
    if Contains(raw, ":memory:") then Traced(Ok("sqlite:///:memory:"), [])
    else
      var parts := Split(raw, "://");
      if |parts| < 2 then Traced(Raised(UnpackTooFew), [])
      else if |parts| > 2 then Traced(Raised(UnpackTooMany), [])
      else
        var dbName, relPath := parts[0], parts[1];
        SchemeMessages(dbName);
        if dbName == "sqlite" then
          var joined := JoinPathsLogged([modulePath, relPath]);
          match joined.outcome
          case Ok(p) => Traced(Ok(dbName + ":///" + p), [])
          case Raised(e) => joined
        else if dbName == "postgresql" then
          RaiseMessage("ValueError", FormatMessageLogged(PostgresUnsupported, [], DefaultPhrase, Backtick))
        else
          RaiseMessage("ValueError", FormatMessageLogged(RecognizeDatabase + "{}", [PyStr(dbName)], DefaultPhrase, Backtick))
  }

  /** The URI `normalize_db_uri` builds from an absolute path `p`. */
  lemma SqliteUri(p: string)
    ensures "sqlite" + ":///" + p == "sqlite:///" + p
    ensures StartsWith("sqlite:///" + p, "sqlite:///")
    ensures StartsWith(p, "/") ==> StartsWith("sqlite:///" + p, "sqlite:////")
  {
    assert "sqlite" + ":///" == "sqlite:///";
    assert ("sqlite:///" + p)[..10] == "sqlite:///";
    if StartsWith(p, "/") {
      assert ("sqlite:///" + p)[..11] == "sqlite:///" + p[..1];
      assert "sqlite:///" + "/" == "sqlite:////";
    }
  }

  /**
   * `normalize_db_uri` under `log.catch`: an in-memory URI, or a sqlite URI
   * made absolute under the module path; every failure surfaces signed and
   * logged exactly once.
   */
  function NormalizeDbUri(modulePath: string, raw: string): (r: Traced<string>)
    ensures Contains(raw, ":memory:") ==> r == Traced(Ok("sqlite:///:memory:"), [])
    ensures r.outcome.Ok? ==> r.log == [] && StartsWith(r.outcome.value, "sqlite:///")
    ensures r.outcome.Raised? ==> Signed(r.outcome.exc) && |r.log| == 1
  {
    RaisedClasses();
    var r := CatchIn(Node("normalize_db_uri"), NormalizeDbUriBody(modulePath, raw));
    if r.outcome.Ok? && !Contains(raw, ":memory:") then
      var parts := Split(raw, "://");
      var joined := JoinPathsSpec([modulePath, parts[1]]).value;
      SqliteUri(joined);
      assert r.outcome.value == "sqlite" + ":///" + joined;
      r
    else r
  }

  /** No `://` of `name + "://" + rel` starts inside `name`. */
  lemma NoEarlySeparator(name: string, rel: string, j: nat)
    requires !Contains(name, "://") && j < |name|
    ensures !OccursAt(name + "://" + rel, "://", j)
  {
    var s := name + "://" + rel;
    if j + 3 <= |name| {
      assert s[j..j + 3] == name[j..j + 3];
      assert !OccursAt(name, "://", j);
    } else if j + 1 == |name| {
      assert s[j + 1] == ':';
    } else {
      assert s[j + 2] == ':';
    }
  }

  lemma SqliteScheme()
    ensures !Contains("sqlite", "://")
  {
    var s := "sqlite";
    assert forall k :: 0 <= k < |s| ==> s[k] != ':';
    forall j | 0 <= j
      ensures !OccursAt(s, "://", j)
    {
      if j + 3 <= |s| {
        assert s[j..j + 3][0] == s[j];
      }
    }
  }

  /** A URI with exactly one `://` splits into its scheme and the rest. */
  lemma SchemeSplit(name: string, rel: string)
    requires !Contains(name, "://") && !Contains(rel, "://")
    ensures Split(name + "://" + rel, "://") == [name, rel]
  {
    var sep := "://";
    var s := name + sep + rel;
    assert OccursAt(s, sep, |name|) by {
      assert s[|name|..|name| + 3] == sep;
    }
    forall j | 0 <= j < |name|
      ensures !OccursAt(s, sep, j)
    {
      NoEarlySeparator(name, rel, j);
    }
    var f := Find(s, sep);
    assert f == Some(|name|);
    assert s[..|name|] == name;
    assert s[|name| + 3..] == rel;
    SplitWithout(rel, sep);
  }

  lemma SqliteBody(modulePath: string, rel: string)
    requires !Contains("sqlite" + "://" + rel, ":memory:") && !Contains(rel, "://")
    ensures NormalizeDbUriBody(modulePath, "sqlite" + "://" + rel) ==
              match JoinPathsSpec([modulePath, rel])
              case Ok(p) => Traced(Ok("sqlite" + ":///" + p), [])
              case Raised(_) => JoinPathsLogged([modulePath, rel])
  {
    SqliteScheme();
    SchemeSplit("sqlite", rel);
  }

  /** For a sqlite URI the decorator lets the body's result through unchanged. */
  lemma SqliteSettled(modulePath: string, rel: string)
    requires !Contains("sqlite" + "://" + rel, ":memory:") && !Contains(rel, "://")
    ensures NormalizeDbUri(modulePath, "sqlite" + "://" + rel) == NormalizeDbUriBody(modulePath, "sqlite" + "://" + rel)
  {
    var uri := "sqlite" + "://" + rel;
    var body := NormalizeDbUriBody(modulePath, uri);
    assert Settled(body) by {
      SqliteBody(modulePath, rel);
    }
    assert CatchIn(Node("normalize_db_uri"), body) == body;
  }

  /**
   * A sqlite URI becomes `sqlite:///` followed by the joined absolute path,
   * which itself starts with `/`: four slashes in all.
   */
  lemma NormalizeSqlite(modulePath: string, rel: string)
    requires !Contains("sqlite" + "://" + rel, ":memory:") && !Contains(rel, "://")
    ensures var r := NormalizeDbUri(modulePath, "sqlite" + "://" + rel);
            match JoinPathsSpec([modulePath, rel])
            case Ok(p) => r == Traced(Ok("sqlite:///" + p), []) && StartsWith(r.outcome.value, "sqlite:////")
            case Raised(_) => r == JoinPathsFailure()
  {
    SqliteSettled(modulePath, rel);
    SqliteBody(modulePath, rel);
    match JoinPathsSpec([modulePath, rel])
    case Ok(p) =>
      JoinPathsAbsolute([modulePath, rel]);
      SqliteUri(p);
    case Raised(_) =>
  }

  /** The error every scheme other than sqlite ends in. */
  function SchemeError(name: string): string {
    if name == "postgresql" then PostgresUnsupported else RecognizeDatabase + Shown(name)
  }

  lemma OtherSchemeBody(modulePath: string, name: string, rel: string)
    requires !Contains(name + "://" + rel, ":memory:") && !Contains(name, "://") && !Contains(rel, "://")
    requires name != "sqlite"
    ensures NormalizeDbUriBody(modulePath, name + "://" + rel) == Traced(Raised(Error("ValueError", SchemeError(name))), [])
  {
    SchemeSplit(name, rel);
    SchemeMessages(name);
  }

  /** Any scheme but sqlite raises a ValueError, signed by `normalize_db_uri` and logged once. */
  lemma NormalizeOtherScheme(modulePath: string, name: string, rel: string)
    requires !Contains(name + "://" + rel, ":memory:") && !Contains(name, "://") && !Contains(rel, "://")
    requires name != "sqlite"
    ensures NormalizeDbUri(modulePath, name + "://" + rel) ==
              Traced(Raised(Exc("ValueError", [Node("normalize_db_uri"), SchemeError(name)])),
                     [Record(Node("normalize_db_uri"), "ValueError: " + SchemeError(name))])
  {
    var m := SchemeError(name);
    OtherSchemeBody(modulePath, name, rel);
    assert "ValueError" + ": " + m == "ValueError: " + m;
  }

  lemma UnpackBody(modulePath: string, raw: string)
    requires !Contains(raw, ":memory:") && |Split(raw, "://")| != 2
    ensures NormalizeDbUriBody(modulePath, raw) ==
              Traced(Raised(if Contains(raw, "://") then UnpackTooMany else UnpackTooFew), [])
  {
    SplitWithout(raw, "://");
  }

  /** Without `://` the two-name unpacking gets one value; with several, too many. */
  lemma NormalizeUnpack(modulePath: string, raw: string)
    requires !Contains(raw, ":memory:") && |Split(raw, "://")| != 2
    ensures var msg := if Contains(raw, "://") then UnpackTooMany.args[0] else UnpackTooFew.args[0];
            NormalizeDbUri(modulePath, raw) ==
              Traced(Raised(Exc("ValueError", [Node("normalize_db_uri"), msg])),
                     [Record(Node("normalize_db_uri"), "ValueError: " + msg)])
  {
    var e := if Contains(raw, "://") then UnpackTooMany else UnpackTooFew;
    UnpackBody(modulePath, raw);
    var msg := e.args[0];
    assert "ValueError" + ": " + msg == "ValueError: " + msg;
  }

  /** Python's `isinstance(v, (list, dict, tuple, set)) and not v`. */
  predicate EmptyContainer(v: Value) {
    IsContainer(v) && !Truthy(v)
  }

  /** An empty container shows as the phrase: `format_message` maps it to one missing value. */
  lemma EmptyMessage(v: Value)
    requires EmptyContainer(v)
    ensures PlainTemplate(RequestedEmpty + "{}" + ".")
    ensures FormatMessageLogged(RequestedEmpty + "{}" + ".", [v], DefaultPhrase, Backtick)
              == Traced(Ok(RequestedEmpty + "`None`" + "."), [])
  {
    BraceFree();
    var w := PyStr(DefaultPhrase);
    if v.PyList? {
      assert Contribution(v, DefaultPhrase) == [w] + [];
    }
    OneValue(RequestedEmpty, ".", v, DefaultPhrase, "`", w);
    assert RequestedEmpty + "`" + Str(w) + "`" + "." == RequestedEmpty + "`None`" + ".";
  }

  /**
   * `get_or_error`, which is not decorated: None and empty containers raise a
   * TypeError, anything else comes back unchanged.
   */
  function GetOrError(v: Value): (r: Traced<Value>)
    ensures r.log == []
    ensures r.outcome.Ok? <==> !v.PyNone? && !EmptyContainer(v)
    ensures r.outcome.Ok? ==> r.outcome.value == v
    ensures v.PyNone? ==> r.outcome == Raised(Error("TypeError", RequestedNone))
    ensures EmptyContainer(v) ==> r.outcome == Raised(Error("TypeError", RequestedEmpty + "`None`."))
  {
    BraceFree();
    if v.PyNone? then
      NoValues(RequestedNone, DefaultPhrase, "`");
      RaiseMessage("TypeError", FormatMessageLogged(RequestedNone, [], DefaultPhrase, Backtick))
    else if EmptyContainer(v) then
      EmptyMessage(v);
      assert RequestedEmpty + "`None`" + "." == RequestedEmpty + "`None`.";
      RaiseMessage("TypeError", FormatMessageLogged(RequestedEmpty + "{}" + ".", [v], DefaultPhrase, Backtick))
    else Traced(Ok(v), [])
  }
}
