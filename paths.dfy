/**
 * `join_paths(*args)`, the same code in `warepy` and in `warepy.core.toolkit`:
 * every argument loses one leading "/" (or else one leading "./") and one
 * trailing "/", and the results are concatenated, each after a "/".
 */
module Paths {
  import opened Wrappers
  import opened PyText
  import opened Exceptions

  /** One argument after stripping, or None where indexing it fails. */
  function Segment(path: string): Option<string> {
    if |path| == 0 then None
    else
      var p := if path[0] == '/' then path[1..] else if StartsWith(path, "./") then path[2..] else path;
      if |p| == 0 then None
      else Some(if p[|p| - 1] == '/' then p[..|p| - 1] else p)
  }

  /** What `join_paths(*args)` returns or raises. */
  function JoinPathsSpec(args: seq<string>): (r: Outcome<string>)
    ensures r.Raised? ==> r.exc == StringIndexError
    decreases |args|
  {
    if |args| == 0 then Ok("")
    else
      match JoinPathsSpec(args[..|args| - 1])
      case Raised(e) => Raised(e)
      case Ok(joined) =>
        match Segment(args[|args| - 1])
        case None => Raised(StringIndexError)
        case Some(s) => Ok(joined + "/" + s)
  }

  /** The loop of `join_paths`, accumulating `summary_path`. */
  method JoinPaths(args: seq<string>) returns (r: Outcome<string>)
    ensures r == JoinPathsSpec(args)
  {
    var summary := "";
    var i := 0;
    while i < |args|
      invariant 0 <= i <= |args|
      invariant JoinPathsSpec(args[..i]) == Ok(summary)
    {
      var path := args[i];
      assert args[..i + 1][..i] == args[..i];
      if |path| == 0 {
        PrefixFailure(args, i + 1);
        return Raised(StringIndexError);
      }
      if path[0] == '/' {
        path := path[1..];
      } else if |path| >= 2 && path[..2] == "./" {
        path := path[2..];
      }
      if |path| == 0 {
        PrefixFailure(args, i + 1);
        return Raised(StringIndexError);
      }
      if path[|path| - 1] == '/' {
        path := path[..|path| - 1];
      }
      summary := summary + "/" + path;
      i := i + 1;
    }
    assert args[..i] == args;
    r := Ok(summary);
  }

  /** Once a prefix of the arguments fails, so does the whole call. */
  lemma {:induction false} PrefixFailure(args: seq<string>, n: nat)
    requires n <= |args| && JoinPathsSpec(args[..n]).Raised?
    ensures JoinPathsSpec(args) == JoinPathsSpec(args[..n])
    decreases |args| - n
  {
    if n < |args| {
      assert args[..n + 1][..n] == args[..n];
      PrefixFailure(args, n + 1);
    } else {
      assert args[..n] == args;
    }
  }

  /**
   * Exactly the arguments "", "/" and "./" make `join_paths` fail: they are
   * empty, or empty once their leading "/" or "./" is gone.
   */
  lemma SegmentFails(path: string)
    ensures Segment(path).None? <==> path == "" || path == "/" || path == "./"
  {
    if path == "./" {
      assert StartsWith(path, "./");
    }
    if |path| > 0 && Segment(path).None? {
      if path[0] == '/' {
        assert path == "/";
      } else {
        assert StartsWith(path, "./") && |path| == 2;
        assert path == path[..2];
      }
    }
  }

  /**
   * A segment is its argument with a leading "/" (or else "./") and a trailing
   * "/" removed, and nothing else.
   */
  lemma SegmentStrips(path: string)
    requires Segment(path).Some?
    ensures var s := Segment(path).value;
      exists lead, trail ::
        && (lead == "" || lead == "/" || lead == "./")
        && (trail == "" || trail == "/")
        && path == lead + s + trail
        && (lead == "/" <==> path[0] == '/')
        && (lead == "./" <==> (path[0] != '/' && StartsWith(path, "./")))
        && (trail == "/" <==> path[|path| - 1] == '/')
  {
    var s := Segment(path).value;
    var lead := if path[0] == '/' then "/" else if StartsWith(path, "./") then "./" else "";
    var p := path[|lead|..];
    var trail := if p[|p| - 1] == '/' then "/" else "";
    assert path == lead + s + trail;
  }

  /** The join of two argument lists is the join of the first followed by that of the second. */
  lemma {:induction false} JoinPathsAppend(a: seq<string>, b: seq<string>)
    ensures JoinPathsSpec(a + b) ==
              match JoinPathsSpec(a)
              case Raised(e) => Raised(e)
              case Ok(x) => (match JoinPathsSpec(b) case Ok(y) => Ok(x + y) case Raised(e) => Raised(e))
    decreases |b|
  {
    if |b| == 0 {
      assert a + b == a;
      match JoinPathsSpec(a) {
        case Ok(x) => assert x + "" == x;
        case Raised(_) =>
      }
    } else {
      var b' := b[..|b| - 1];
      assert (a + b)[..|a + b| - 1] == a + b';
      assert (a + b)[|a + b| - 1] == b[|b| - 1];
      JoinPathsAppend(a, b');
      match JoinPathsSpec(a) {
        case Raised(_) =>
        case Ok(x) =>
          match JoinPathsSpec(b') {
            case Raised(_) =>
            case Ok(y) =>
              match Segment(b[|b| - 1]) {
                case None =>
                case Some(s) => assert x + y + "/" + s == x + (y + "/" + s);
              }
          }
      }
    }
  }

  /** `join_paths` succeeds exactly when no argument is "", "/" or "./". */
  lemma {:induction false} JoinPathsOkIff(args: seq<string>)
    ensures JoinPathsSpec(args).Ok? <==> forall i :: 0 <= i < |args| ==> Segment(args[i]).Some?
    decreases |args|
  {
    if |args| > 0 {
      var init := args[..|args| - 1];
      JoinPathsOkIff(init);
      assert forall i :: 0 <= i < |init| ==> init[i] == args[i];
    }
  }

  /** A successful join is the join of its first argument followed by that of the rest. */
  lemma JoinPathsFirst(args: seq<string>)
    requires |args| > 0 && JoinPathsSpec(args).Ok?
    ensures JoinPathsSpec([args[0]]).Ok? && JoinPathsSpec(args[1..]).Ok?
    ensures JoinPathsSpec(args).value == JoinPathsSpec([args[0]]).value + JoinPathsSpec(args[1..]).value
  {
    assert [args[0]] + args[1..] == args;
    JoinPathsAppend([args[0]], args[1..]);
  }

  /** A successful `join_paths` begins with "/" and the first segment. */
  lemma JoinPathsHead(args: seq<string>)
    requires |args| > 0 && JoinPathsSpec(args).Ok?
    ensures Segment(args[0]).Some? && StartsWith(JoinPathsSpec(args).value, "/" + Segment(args[0]).value)
  {
    JoinPathsFirst(args);
    JoinPathsSingle(args[0]);
    StartsWithConcat(JoinPathsSpec([args[0]]).value, JoinPathsSpec(args[1..]).value);
  }

  /** A single argument joins to "/" and its segment. */
  lemma JoinPathsSingle(path: string)
    ensures JoinPathsSpec([path]) == match Segment(path) case None => Raised(StringIndexError) case Some(s) => Ok("/" + s)
  {
    assert [path][..0] == [];
    if Segment(path).Some? {
      assert "" + "/" + Segment(path).value == "/" + Segment(path).value;
    }
  }

  /** A successful call with arguments returns an absolute path. */
  lemma JoinPathsAbsolute(args: seq<string>)
    requires |args| > 0 && JoinPathsSpec(args).Ok?
    ensures StartsWith(JoinPathsSpec(args).value, "/")
  {
    JoinPathsHead(args);
    var p := JoinPathsSpec(args).value;
    var h := "/" + Segment(args[0]).value;
    assert p[0] == p[..|h|][0] == h[0];
    assert p[..1] == "/";
  }

  /**
   * `join_paths` succeeds exactly when no argument is "", "/" or "./"; its
   * result then begins with the first segment after a "/".
   */
  lemma JoinPathsSucceeds(args: seq<string>)
    ensures JoinPathsSpec(args).Ok? <==> forall i :: 0 <= i < |args| ==> Segment(args[i]).Some?
    ensures |args| > 0 && JoinPathsSpec(args).Ok? ==>
              StartsWith(JoinPathsSpec(args).value, "/" + Segment(args[0]).value)
  {
    JoinPathsOkIff(args);
    if |args| > 0 && JoinPathsSpec(args).Ok? {
      JoinPathsHead(args);
    }
  }
}
