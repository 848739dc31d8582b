/** `snakefy`: CamelCase to snake_case. */
module Snake {
  import opened PyText
  import opened Exceptions

  /** The words `snakefy` collects for a non-empty name, each already lower-case. */
  function SnakeWords(camel: string): (ws: seq<string>)
    requires |camel| > 0
    ensures |ws| > 0
    decreases |camel|
  {
    if |camel| == 1 then [[Lower(camel[0])]]
    else
      var ws := SnakeWords(camel[..|camel| - 1]);
      var c := camel[|camel| - 1];
      if IsUpper(c) then ws + [[Lower(c)]]
      else ws[..|ws| - 1] + [ws[|ws| - 1] + [Lower(c)]]
  }

  /** What `snakefy` returns or raises: `camel_name[0]` fails on the empty name. */
  function SnakeSpec(camel: string): Outcome<string> {
    if |camel| == 0 then Raised(StringIndexError) else Ok(Join("_", SnakeWords(camel)))
  }

  /** `snakefy`, with its `words` and `word` accumulators. */
  method Snakefy(camel: string) returns (r: Outcome<string>)
    ensures r == SnakeSpec(camel)
  {
    if |camel| == 0 {
      return Raised(StringIndexError);
    }
    var words: seq<string> := [];
    var word := [Lower(camel[0])];
    var i := 1;
    while i < |camel|
      invariant 1 <= i <= |camel|
      invariant words + [word] == SnakeWords(camel[..i])
    {
      var c := camel[i];
      assert camel[..i + 1][..i] == camel[..i];
      if IsUpper(c) {
        words := words + [word];
        word := [Lower(c)];
      } else {
        word := word + [Lower(c)];
      }
      i := i + 1;
    }
    words := words + [word];
    assert camel[..i] == camel;
    r := Ok(Join("_", words));
  }

  /** An independent reading: each upper-case letter after the first character becomes `_` and its lower case. */
  function Snaked(s: string): (r: string)
    decreases |s|
  {
    if |s| == 0 then ""
    else
      var c := s[|s| - 1];
      Snaked(s[..|s| - 1]) + (if IsUpper(c) then "_" + [Lower(c)] else [Lower(c)])
  }

  /** The joined words are the first character lowered, then the rest snaked. */
  lemma {:induction false} SnakeJoin(camel: string)
    requires |camel| > 0
    ensures Join("_", SnakeWords(camel)) == [Lower(camel[0])] + Snaked(camel[1..])
    decreases |camel|
  {
    if |camel| > 1 {
      var init := camel[..|camel| - 1];
      var c := camel[|camel| - 1];
      var piece := if IsUpper(c) then "_" + [Lower(c)] else [Lower(c)];
      var ws := SnakeWords(init);
      assert Snaked(camel[1..]) == Snaked(init[1..]) + piece by {
        assert camel[1..][..|camel[1..]| - 1] == init[1..];
      }
      assert Join("_", SnakeWords(camel)) == Join("_", ws) + piece by {
        if IsUpper(c) {
          JoinSnoc("_", ws, [Lower(c)]);
        } else {
          var front := ws[..|ws| - 1];
          assert ws == front + [ws[|ws| - 1]];
          JoinExtendLast("_", front, ws[|ws| - 1], [Lower(c)]);
        }
      }
      SnakeJoin(init);
      assert init[0] == camel[0];
    }
  }

  function CountChar(s: string, ch: char): nat
    decreases |s|
  {
    if |s| == 0 then 0 else CountChar(s[..|s| - 1], ch) + (if s[|s| - 1] == ch then 1 else 0)
  }

  function CountUpper(s: string): nat
    decreases |s|
  {
    if |s| == 0 then 0 else CountUpper(s[..|s| - 1]) + (if IsUpper(s[|s| - 1]) then 1 else 0)
  }

  /** `s` with every `_` deleted. */
  function DropUnderscores(s: string): string
    decreases |s|
  {
    if |s| == 0 then ""
    else DropUnderscores(s[..|s| - 1]) + (if s[|s| - 1] == '_' then "" else [s[|s| - 1]])
  }

  lemma {:induction false} CountCharAppend(a: string, b: string, ch: char)
    ensures CountChar(a + b, ch) == CountChar(a, ch) + CountChar(b, ch)
    decreases |b|
  {
    if |b| == 0 {
      assert a + b == a;
    } else {
      assert (a + b)[..|a + b| - 1] == a + b[..|b| - 1];
      CountCharAppend(a, b[..|b| - 1], ch);
    }
  }

  lemma {:induction false} DropAppend(a: string, b: string)
    ensures DropUnderscores(a + b) == DropUnderscores(a) + DropUnderscores(b)
    decreases |b|
  {
    if |b| == 0 {
      assert a + b == a;
    } else {
      assert (a + b)[..|a + b| - 1] == a + b[..|b| - 1];
      DropAppend(a, b[..|b| - 1]);
    }
  }

  /** What one character snakes to. */
  function Piece(c: char): string {
    if IsUpper(c) then "_" + [Lower(c)] else [Lower(c)]
  }

  lemma PieceFacts(c: char)
    ensures forall k :: 0 <= k < |Piece(c)| ==> !IsUpper(Piece(c)[k])
    ensures CountChar(Piece(c), '_') == CountChar([c], '_') + (if IsUpper(c) then 1 else 0)
    ensures DropUnderscores(Piece(c)) == DropUnderscores([Lower(c)])
  {
    assert [c][..0] == [];
    assert [Lower(c)][..0] == [];
    assert Lower(c) == '_' <==> c == '_';
    if IsUpper(c) {
      var p := Piece(c);
      assert p[..1] == "_";
      assert CountChar("_", '_') == 1 by { assert "_"[..0] == []; }
      assert DropUnderscores("_") == "" by { assert "_"[..0] == []; }
    }
  }

  lemma {:induction false} SnakedStep(s: string)
    requires |s| > 0
    ensures Snaked(s) == Snaked(s[..|s| - 1]) + Piece(s[|s| - 1])
    ensures LowerStr(s) == LowerStr(s[..|s| - 1]) + [Lower(s[|s| - 1])]
    ensures s == s[..|s| - 1] + [s[|s| - 1]]
  {
  }

  /** Snaking leaves nothing upper-case. */
  lemma {:induction false} SnakedLower(s: string)
    ensures forall k :: 0 <= k < |Snaked(s)| ==> !IsUpper(Snaked(s)[k])
    decreases |s|
  {
    if |s| > 0 {
      var init := s[..|s| - 1];
      SnakedLower(init);
      SnakedStep(s);
      PieceFacts(s[|s| - 1]);
      var a, p := Snaked(init), Piece(s[|s| - 1]);
      forall k | 0 <= k < |a + p| ensures !IsUpper((a + p)[k]) {
        if k >= |a| { assert (a + p)[k] == p[k - |a|]; }
      }
    }
  }

  /** Snaking adds one underscore per upper-case character. */
  lemma {:induction false} SnakedUnderscores(s: string)
    ensures CountChar(Snaked(s), '_') == CountChar(s, '_') + CountUpper(s)
    decreases |s|
  {
    if |s| > 0 {
      var init, c := s[..|s| - 1], s[|s| - 1];
      SnakedUnderscores(init);
      SnakedStep(s);
      PieceFacts(c);
      CountCharAppend(Snaked(init), Piece(c), '_');
      CountCharAppend(init, [c], '_');
    }
  }

  /** Without underscores, the snaked text is the lowered text. */
  lemma {:induction false} SnakedDropped(s: string)
    ensures DropUnderscores(Snaked(s)) == DropUnderscores(LowerStr(s))
    decreases |s|
  {
    if |s| > 0 {
      var init, c := s[..|s| - 1], s[|s| - 1];
      SnakedDropped(init);
      SnakedStep(s);
      PieceFacts(c);
      DropAppend(Snaked(init), Piece(c));
      DropAppend(LowerStr(init), [Lower(c)]);
    }
  }

  lemma SnakefyLower(camel: string)
    requires |camel| > 0
    ensures SnakeSpec(camel).Ok?
    ensures forall k :: 0 <= k < |SnakeSpec(camel).value| ==> !IsUpper(SnakeSpec(camel).value[k])
  {
    SnakeJoin(camel);
    SnakedLower(camel[1..]);
    var head, tail := [Lower(camel[0])], Snaked(camel[1..]);
    forall k | 0 <= k < |head + tail| ensures !IsUpper((head + tail)[k]) {
      if k > 0 { assert (head + tail)[k] == tail[k - 1]; }
    }
  }

  lemma SnakefyUnderscores(camel: string)
    requires |camel| > 0
    ensures SnakeSpec(camel).Ok?
    ensures CountChar(SnakeSpec(camel).value, '_') == CountChar(camel, '_') + CountUpper(camel[1..])
  {
    var tail := camel[1..];
    var head := [Lower(camel[0])];
    SnakeJoin(camel);
    var r := head + Snaked(tail);
    assert SnakeSpec(camel).value == r;
    SnakedUnderscores(tail);
    CountCharAppend(head, Snaked(tail), '_');
    SplitFirst(camel, '_');
    HeadCount(camel[0]);
  }

  lemma SplitFirst(s: string, ch: char)
    requires |s| > 0
    ensures CountChar(s, ch) == CountChar([s[0]], ch) + CountChar(s[1..], ch)
  {
    assert s == [s[0]] + s[1..];
    CountCharAppend([s[0]], s[1..], ch);
  }

  lemma HeadCount(c: char)
    ensures CountChar([Lower(c)], '_') == CountChar([c], '_')
  {
    CountSingle(Lower(c), '_');
    CountSingle(c, '_');
    assert Lower(c) == '_' <==> c == '_';
  }

  lemma CountSingle(c: char, ch: char)
    ensures CountChar([c], ch) == if c == ch then 1 else 0
  {
    assert [c][..0] == [];
  }

  lemma SnakefyDropped(camel: string)
    requires |camel| > 0
    ensures SnakeSpec(camel).Ok?
    ensures DropUnderscores(SnakeSpec(camel).value) == DropUnderscores(LowerStr(camel))
  {
    SnakeJoin(camel);
    SnakedDropped(camel[1..]);
    var head := [Lower(camel[0])];
    DropAppend(head, Snaked(camel[1..]));
    assert LowerStr(camel) == head + LowerStr(camel[1..]);
    DropAppend(head, LowerStr(camel[1..]));
  }

  /**
   * `snakefy` of a non-empty name: nothing upper-case is left, one `_` is
   * added per upper-case character after the first, and deleting the
   * underscores gives the lowered name with its own underscores deleted.
   */
  lemma SnakefyProperties(camel: string)
    requires |camel| > 0
    ensures SnakeSpec(camel).Ok?
    ensures var r := SnakeSpec(camel).value;
            && (forall k :: 0 <= k < |r| ==> !IsUpper(r[k]))
            && CountChar(r, '_') == CountChar(camel, '_') + CountUpper(camel[1..])
            && DropUnderscores(r) == DropUnderscores(LowerStr(camel))
  {
    SnakefyLower(camel);
    SnakefyUnderscores(camel);
    SnakefyDropped(camel);
  }

  /** For a name without underscores, deleting them from the result gives back `camel_name.lower()`. */
  lemma {:induction false} NoUnderscoreName(s: string)
    requires forall k :: 0 <= k < |s| ==> s[k] != '_'
    ensures DropUnderscores(LowerStr(s)) == LowerStr(s)
    decreases |s|
  {
    if |s| > 0 {
      var init := s[..|s| - 1];
      NoUnderscoreName(init);
      assert LowerStr(s)[..|s| - 1] == LowerStr(init);
      assert Lower(s[|s| - 1]) != '_';
    }
  }
}
