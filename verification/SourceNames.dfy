/** Source names and tool ids (cmd/acp-bridge/main.go). */
module SourceNames {
  import opened Text

  predicate IsAllowed(c: char) { 'a' <= c <= 'z' || '0' <= c <= '9' }

  /** What the loop over a name writes: allowed characters as they are, every run of
      others as one underscore. */
  function Collapsed(s: string, lastUnderscore: bool): string {
    if s == "" then ""
    else if IsAllowed(s[0]) then [s[0]] + Collapsed(s[1..], false)
    else if lastUnderscore then Collapsed(s[1..], true)
    else "_" + Collapsed(s[1..], true)
  }

  function TrimUnderscores(s: string): string
    decreases |s|
  {
    if s != "" && s[0] == '_' then TrimUnderscores(s[1..])
    else if s != "" && s[|s| - 1] == '_' then TrimUnderscores(s[..|s| - 1])
    else s
  }

  function SafeName(name: string): string { TrimUnderscores(Collapsed(Normalize(name), false)) }

  lemma CollapsedStep(b: string, s: string, lastUnderscore: bool)
    requires s != ""
    ensures b + Collapsed(s, lastUnderscore) ==
      if IsAllowed(s[0]) then (b + [s[0]]) + Collapsed(s[1..], false)
      else if lastUnderscore then b + Collapsed(s[1..], true)
      else (b + "_") + Collapsed(s[1..], true)
  {
  }

  method SafeSourceName(name: string) returns (r: string)
    ensures r == SafeName(name)
  {
    var lower := Normalize(name);
    var b := "";
    var lastUnderscore := false;
    assert lower[0..] == lower;
    for i := 0 to |lower|
      invariant b + Collapsed(lower[i..], lastUnderscore) == Collapsed(lower, false)
    {
      assert lower[i..][1..] == lower[i + 1..];
      CollapsedStep(b, lower[i..], lastUnderscore);
      if IsAllowed(lower[i]) {
        b := b + [lower[i]];
        lastUnderscore := false;
        continue;
      }
      if !lastUnderscore {
        b := b + "_";
        lastUnderscore := true;
      }
    }
    assert lower[|lower|..] == "" && b + "" == b;
    r := TrimUnderscores(b);
  }

  // ----- Safe names -----

  /** Allowed characters and underscores, no two underscores in a row. */
  predicate SingleSpaced(s: string) {
    (forall i :: 0 <= i < |s| ==> IsAllowed(s[i]) || s[i] == '_') &&
    (forall i :: 0 <= i < |s| - 1 ==> s[i] != '_' || s[i + 1] != '_')
  }

  predicate IsSafe(s: string) {
    SingleSpaced(s) && (s != "" ==> s[0] != '_' && s[|s| - 1] != '_')
  }

  lemma {:induction false} CollapsedIsSpaced(s: string, lastUnderscore: bool)
    ensures SingleSpaced(Collapsed(s, lastUnderscore))
    ensures lastUnderscore && Collapsed(s, lastUnderscore) != "" ==> Collapsed(s, lastUnderscore)[0] != '_'
  {
    if s == "" {
    } else {
      CollapsedIsSpaced(s[1..], false);
      CollapsedIsSpaced(s[1..], true);
    }
  }

  lemma {:induction false} TrimmedIsSafe(s: string)
    requires SingleSpaced(s)
    ensures IsSafe(TrimUnderscores(s))
    decreases |s|
  {
    if s != "" && s[0] == '_' {
      assert SingleSpaced(s[1..]);
      TrimmedIsSafe(s[1..]);
    } else if s != "" && s[|s| - 1] == '_' {
      assert SingleSpaced(s[..|s| - 1]);
      TrimmedIsSafe(s[..|s| - 1]);
    }
  }

  lemma SafeNameIsSafe(name: string)
    ensures IsSafe(SafeName(name))
  {
    CollapsedIsSpaced(Normalize(name), false);
    TrimmedIsSafe(Collapsed(Normalize(name), false));
  }

  lemma {:induction false} CollapsedKeeps(s: string, lastUnderscore: bool)
    requires SingleSpaced(s) && (lastUnderscore && s != "" ==> s[0] != '_')
    ensures Collapsed(s, lastUnderscore) == s
  {
    if s == "" {
    } else {
      assert SingleSpaced(s[1..]);
      if |s| > 1 { assert s[0] != '_' || s[1] != '_'; }
      CollapsedKeeps(s[1..], s[0] == '_');
      assert s == [s[0]] + s[1..];
    }
  }

  lemma {:induction false} LowerKeeps(s: string)
    requires forall i :: 0 <= i < |s| ==> IsAllowed(s[i]) || s[i] == '_'
    ensures ToLower(s) == s
  {
  }

  /** The safe names are exactly those the function leaves alone. */
  lemma SafeNameFixpoints(name: string)
    ensures SafeName(name) == name <==> IsSafe(name)
  {
    SafeNameIsSafe(name);
    if IsSafe(name) {
      LowerKeeps(name);
      NormalizeNormal(name);
      CollapsedKeeps(name, false);
    }
  }

  lemma SafeNameIdempotent(name: string)
    ensures SafeName(SafeName(name)) == SafeName(name)
  {
    SafeNameIsSafe(name);
    SafeNameFixpoints(SafeName(name));
  }

  // ----- What a safe name keeps -----

  predicate Disallowed(c: char) { !IsAllowed(c) }

  /** Without the underscores at its end. */
  function TrimRight(s: string): string {
    if s != "" && s[|s| - 1] == '_' then TrimRight(s[..|s| - 1]) else s
  }

  lemma {:induction false} TrimFromRight(s: string)
    requires s == "" || s[0] != '_'
    ensures TrimUnderscores(s) == TrimRight(s)
    decreases |s|
  {
    if s != "" && s[|s| - 1] == '_' { TrimFromRight(s[..|s| - 1]); }
  }

  lemma {:induction false} TrimRightAppend(a: string, b: string)
    ensures TrimRight(a + b) == if TrimRight(b) == "" then TrimRight(a) else a + TrimRight(b)
    decreases |b|
  {
    if b == "" {
      assert a + b == a;
    } else if b[|b| - 1] == '_' {
      assert (a + b)[..|a + b| - 1] == a + b[..|b| - 1];
      TrimRightAppend(a, b[..|b| - 1]);
    } else {
      assert (a + b)[|a + b| - 1] == b[|b| - 1];
    }
  }

  lemma JoinFirst(first: string, rest: seq<string>)
    ensures Join([first] + rest, '_') == if rest == [] then first else first + "_" + Join(rest, '_')
  {
    assert ([first] + rest)[1..] == rest;
  }

  lemma {:induction false} JoinIsEmpty(s: string)
    ensures var p := Pieces(s, "", Disallowed); Join(p, '_') == "" <==> p == []
  {
    var p := Pieces(s, "", Disallowed);
    if p != [] {
      PiecesAre(s, "", p[0], Disallowed);
      assert p[0] in p && p[0] != "";
    }
  }

  lemma TrimWord(cur: string)
    requires cur != "" && Free(cur, Disallowed)
    ensures TrimRight(cur) == cur && TrimRight(cur + "_") == cur
  {
    assert cur[|cur| - 1] in cur;
    assert (cur + "_")[..|cur|] == cur;
  }

  /** Behind a piece under way comes the rest of it, or a break and the pieces after it. */
  lemma {:induction false} CollapsedJoins(s: string, cur: string)
    requires Free(cur, Disallowed)
    ensures cur != "" ==> TrimRight(cur + Collapsed(s, false)) == Join(Pieces(s, cur, Disallowed), '_')
    ensures TrimRight(Collapsed(s, true)) == Join(Pieces(s, "", Disallowed), '_')
    decreases |s|
  {
    if s == "" {
      assert cur + "" == cur;
      if cur != "" { TrimWord(cur); }
    } else if IsAllowed(s[0]) {
      CollapsedJoins(s[1..], cur + [s[0]]);
      CollapsedJoins(s[1..], [s[0]]);
      assert cur + ([s[0]] + Collapsed(s[1..], false)) == (cur + [s[0]]) + Collapsed(s[1..], false);
      assert "" + [s[0]] == [s[0]];
    } else {
      CollapsedJoins(s[1..], "");
      assert [] + Pieces(s[1..], "", Disallowed) == Pieces(s[1..], "", Disallowed);
      if cur != "" { BreakJoins(s, cur); }
    }
  }

  lemma BreakJoins(s: string, cur: string)
    requires s != "" && Disallowed(s[0]) && cur != "" && Free(cur, Disallowed)
    requires TrimRight(Collapsed(s[1..], true)) == Join(Pieces(s[1..], "", Disallowed), '_')
    ensures TrimRight(cur + Collapsed(s, false)) == Join(Pieces(s, cur, Disallowed), '_')
  {
    var tail, rest := Collapsed(s[1..], true), Pieces(s[1..], "", Disallowed);
    assert cur + ("_" + tail) == (cur + "_") + tail;
    TrimRightAppend(cur + "_", tail);
    TrimWord(cur);
    JoinFirst(cur, rest);
    JoinIsEmpty(s[1..]);
  }

  lemma StartsWithWord(s: string)
    requires s != "" && IsAllowed(s[0])
    ensures TrimUnderscores(Collapsed(s, false)) == Join(Pieces(s, "", Disallowed), '_')
  {
    CollapsedJoins(s[1..], [s[0]]);
    assert "" + [s[0]] == [s[0]];
    TrimFromRight(Collapsed(s, false));
  }

  lemma StartsWithBreak(s: string)
    requires s != "" && Disallowed(s[0])
    ensures TrimUnderscores(Collapsed(s, false)) == Join(Pieces(s, "", Disallowed), '_')
  {
    var tail, pieces := Collapsed(s[1..], true), Pieces(s[1..], "", Disallowed);
    CollapsedJoins(s[1..], "");
    CollapsedIsSpaced(s[1..], true);
    assert ("_" + tail)[1..] == tail && [] + pieces == pieces;
    TrimFromRight(tail);
  }

  /** A safe name is the words of the name, the runs of letters and digits, lower-cased and
      joined by underscores. */
  lemma SafeNameJoinsWords(name: string)
    ensures SafeName(name) == Join(Pieces(Normalize(name), "", Disallowed), '_')
  {
    var s := Normalize(name);
    if s == "" {
    } else if IsAllowed(s[0]) {
      StartsWithWord(s);
    } else {
      StartsWithBreak(s);
    }
  }

  /** It is empty exactly when the name has neither letters nor digits. */
  lemma SafeNameIsEmpty(name: string)
    ensures SafeName(name) == "" <==> forall c :: c in Normalize(name) ==> !IsAllowed(c)
  {
    var s := Normalize(name);
    SafeNameJoinsWords(name);
    JoinIsEmpty(s);
    NoPieces(s, "");
  }

  lemma {:induction false} NoPieces(s: string, cur: string)
    ensures Pieces(s, cur, Disallowed) == [] <==> cur == "" && forall c :: c in s ==> !IsAllowed(c)
    decreases |s|
  {
    if s == "" {
    } else if Disallowed(s[0]) {
      NoPieces(s[1..], "");
    } else {
      NoPieces(s[1..], cur + [s[0]]);
    }
  }

  lemma SafeHasNoDot(name: string)
    ensures '.' !in SafeName(name)
  {
    SafeNameIsSafe(name);
  }

  // ----- Splitting tool ids -----

  /** The id before and after its first dot; the whole id twice if it has none. */
  function SplitId(id: string): (string, string) {
    var dots := Split(id, '.');
    if |dots| == 1 then (id, id) else (dots[0], Join(dots[1..], '.'))
  }

  method SplitToolId(id: string) returns (source: string, toolName: string)
    ensures (source, toolName) == SplitId(id)
  {
    source, toolName := id, id;
    for i := 0 to |id|
      invariant source == id && toolName == id && '.' !in id[..i]
    {
      if id[i] == '.' {
        source, toolName := id[..i], id[i + 1..];
        assert id == source + ['.'] + toolName;
        SplitIdOfPair(source, toolName);
        return;
      }
    }
    assert id[..|id|] == id;
    SplitIdWhole(id);
  }

  /** An id without a dot is its own source and name. */
  lemma SplitIdWhole(id: string)
    requires '.' !in id
    ensures SplitId(id) == (id, id)
  {
    SplitWhole(id, '.');
  }

  /** A dotless source name comes back with the tool name whole, dots included. */
  lemma SplitIdOfPair(source: string, toolName: string)
    requires '.' !in source
    ensures SplitId(source + "." + toolName) == (source, toolName)
  {
    SplitHead(source, toolName, '.');
    JoinSplit(toolName, '.');
    assert ([source] + Split(toolName, '.'))[1..] == Split(toolName, '.');
  }
}
