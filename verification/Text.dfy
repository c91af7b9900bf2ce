/** Strings as the programs use them: byte order, ASCII case folding, trimming,
    splitting and joining, and decimal printing. */
module Text {

  // ----- Lexicographic order (Go's and Python's order on ASCII strings) -----

  predicate StrLe(a: string, b: string) {
    a == [] || (b != [] && (a[0] < b[0] || (a[0] == b[0] && StrLe(a[1..], b[1..]))))
  }

  lemma {:induction false} StrLeTotal(a: string, b: string)
    ensures StrLe(a, b) || StrLe(b, a)
  {
    if a == [] || b == [] || a[0] != b[0] {
    } else {
      StrLeTotal(a[1..], b[1..]);
    }
  }

  lemma {:induction false} StrLeAntisymmetric(a: string, b: string)
    requires StrLe(a, b) && StrLe(b, a)
    ensures a == b
  {
    if a == [] || b == [] {
    } else {
      StrLeAntisymmetric(a[1..], b[1..]);
      assert a == [a[0]] + a[1..] && b == [b[0]] + b[1..];
    }
  }

  lemma {:induction false} StrLeTransitive(a: string, b: string, c: string)
    requires StrLe(a, b) && StrLe(b, c)
    ensures StrLe(a, c)
  {
    if a == [] || a[0] != b[0] || b[0] != c[0] {
    } else {
      StrLeTransitive(a[1..], b[1..], c[1..]);
    }
  }

  /** The first place where two strings differ decides, and a string comes before what goes
      on from it. */
  lemma {:induction false} StrLeExactly(a: string, b: string)
    ensures StrLe(a, b) <==> a <= b || exists k :: FirstSmaller(a, b, k)
  {
    if a == [] {
    } else if b == [] || a[0] != b[0] {
      if b != [] && a[0] < b[0] { assert FirstSmaller(a, b, 0); }
      assert forall k :: FirstSmaller(a, b, k) && k > 0 ==> a[..k][0] == b[..k][0];
    } else {
      StrLeExactly(a[1..], b[1..]);
      assert a == [a[0]] + a[1..] && b == [a[0]] + b[1..];
      if k :| FirstSmaller(a[1..], b[1..], k) {
        assert a[..k + 1] == [a[0]] + a[1..][..k] && b[..k + 1] == [a[0]] + b[1..][..k];
        assert FirstSmaller(a, b, k + 1);
      }
      if k :| FirstSmaller(a, b, k) {
        assert a[1..][..k - 1] == a[..k][1..] && b[1..][..k - 1] == b[..k][1..];
        assert FirstSmaller(a[1..], b[1..], k - 1);
      }
    }
  }

  predicate FirstSmaller(a: string, b: string, k: int) {
    0 <= k < |a| && k < |b| && a[..k] == b[..k] && a[k] < b[k]
  }

  // ----- Prefixes and suffixes -----

  lemma Assoc(a: string, b: string, c: string)
    ensures (a + b) + c == a + (b + c)
  {
  }

  predicate HasPrefix(s: string, p: string) { p <= s }

  predicate HasSuffix(s: string, p: string) {
    |p| <= |s| && s[|s| - |p|..] == p
  }

  function TrimPrefix(s: string, p: string): string {
    if HasPrefix(s, p) then s[|p|..] else s
  }

  function TrimSuffix(s: string, p: string): string {
    if HasSuffix(s, p) then s[..|s| - |p|] else s
  }

  lemma TrimSuffixOfAppend(s: string, p: string)
    ensures HasSuffix(s + p, p) && TrimSuffix(s + p, p) == s
  {
    assert (s + p)[|s|..] == p;
  }

  /** strings.TrimRight(url, "/"). */
  function WithoutSlashes(url: string): string {
    if HasSuffix(url, "/") then WithoutSlashes(url[..|url| - 1]) else url
  }

  /** Everything before the first occurrence of a cut character. */
  function UpTo(s: string, cut: set<char>): (r: string)
    ensures r <= s && forall c :: c in r ==> c !in cut
  {
    if s == "" || s[0] in cut then "" else [s[0]] + UpTo(s[1..], cut)
  }

  lemma {:induction false} UpToStops(a: string, c: char, b: string, cut: set<char>)
    requires c in cut && forall x :: x in a ==> x !in cut
    ensures UpTo(a + [c] + b, cut) == a
  {
    if a == "" {
    } else {
      assert (a + [c] + b)[1..] == a[1..] + [c] + b;
      UpToStops(a[1..], c, b, cut);
    }
  }

  /** A later cut after an earlier one. */
  lemma {:induction false} UpToUpTo(s: string, cut: set<char>, more: set<char>)
    ensures UpTo(UpTo(s, cut), more) == UpTo(s, cut + more)
  {
    if s == "" || s[0] in cut {
    } else {
      UpToUpTo(s[1..], cut, more);
      assert UpTo(s, cut)[1..] == UpTo(s[1..], cut);
    }
  }

  // ----- Case folding and trimming -----

  function LowerChar(c: char): char {
    if 'A' <= c <= 'Z' then c + 32 as char else c
  }

  function ToLower(s: string): (r: string)
    ensures |r| == |s|
    ensures forall i :: 0 <= i < |s| ==> r[i] == LowerChar(s[i])
  {
    if s == [] then [] else [LowerChar(s[0])] + ToLower(s[1..])
  }

  /** ASCII white space: blank, tab, line feed, vertical tab, form feed, return. */
  predicate IsSpace(c: char) { c == ' ' || 9 <= c as int <= 13 }

  function TrimSpaceLeft(s: string): (r: string)
    ensures |r| <= |s|
    ensures r == [] || !IsSpace(r[0])
  {
    if s != [] && IsSpace(s[0]) then TrimSpaceLeft(s[1..]) else s
  }

  function TrimSpaceRight(s: string): (r: string)
    ensures r <= s
    ensures r == [] || !IsSpace(r[|r| - 1])
  {
    if s != [] && IsSpace(s[|s| - 1]) then TrimSpaceRight(s[..|s| - 1]) else s
  }

  function TrimSpace(s: string): string { TrimSpaceRight(TrimSpaceLeft(s)) }

  /** How the registry, the resolver and the importers normalise a tag. */
  function Normalize(s: string): string { ToLower(TrimSpace(s)) }

  /** No white space at either end. */
  predicate Trimmed(s: string) {
    s == "" || (!IsSpace(s[0]) && !IsSpace(s[|s| - 1]))
  }

  lemma TrimSpaceTrims(s: string)
    ensures Trimmed(TrimSpace(s))
    ensures Trimmed(s) ==> TrimSpace(s) == s
  {
  }

  /** Blank, tab, line feed, vertical tab, form feed and return. */
  const BLANKS := {' ', '\t', '\n', 11 as char, 12 as char, '\r'}

  predicate Blank(s: string) { forall c :: c in s ==> c in BLANKS }

  lemma {:induction false} LeftBlanksGo(a: string, s: string)
    requires Blank(a) && (s == "" || s[0] !in BLANKS)
    ensures TrimSpaceLeft(a + s) == s
  {
    if a == "" {
      assert a + s == s;
    } else {
      assert a[0] in BLANKS && (a + s)[1..] == a[1..] + s;
      LeftBlanksGo(a[1..], s);
    }
  }

  lemma {:induction false} RightBlanksGo(s: string, b: string)
    requires Blank(b) && (s == "" || s[|s| - 1] !in BLANKS)
    ensures TrimSpaceRight(s + b) == s
  {
    if b == "" {
      assert s + b == s;
    } else {
      var n := |b| - 1;
      assert b[n] in BLANKS && (s + b)[..|s + b| - 1] == s + b[..n];
      RightBlanksGo(s, b[..n]);
    }
  }

  /** What is trimmed is exactly the blanks on both sides. */
  lemma BlanksGo(a: string, s: string, b: string)
    requires Blank(a) && Blank(b) && s != "" && s[0] !in BLANKS && s[|s| - 1] !in BLANKS
    ensures TrimSpace(a + (s + b)) == s
  {
    LeftBlanksGo(a, s + b);
    RightBlanksGo(s, b);
  }

  lemma LowerKeepsTrimmed(s: string)
    ensures Trimmed(ToLower(s)) <==> Trimmed(s)
  {
    if s != "" {
      assert ToLower(s)[0] == LowerChar(s[0]) && ToLower(s)[|s| - 1] == LowerChar(s[|s| - 1]);
    }
  }

  lemma LowerIdempotent(s: string)
    ensures ToLower(ToLower(s)) == ToLower(s)
  {
  }

  /** A normalised tag is normal, and a tag without outer white space normalises to
      its lower-case form. */
  lemma NormalizeNormal(s: string)
    ensures Trimmed(Normalize(s)) && ToLower(Normalize(s)) == Normalize(s) == Normalize(Normalize(s))
    ensures Trimmed(s) ==> Normalize(s) == ToLower(s)
  {
    TrimSpaceTrims(s);
    LowerKeepsTrimmed(TrimSpace(s));
    LowerIdempotent(TrimSpace(s));
    TrimSpaceTrims(Normalize(s));
  }

  // ----- Splitting and joining (strings.Split, strings.Join) -----

  function Split(s: string, sep: char): (parts: seq<string>)
    ensures parts != [] && forall i :: 0 <= i < |parts| ==> sep !in parts[i]
  {
    if s == [] then [""]
    else
      var rest := Split(s[1..], sep);
      if s[0] == sep then [""] + rest else [[s[0]] + rest[0]] + rest[1..]
  }

  function Join(parts: seq<string>, sep: char): string {
    if parts == [] then ""
    else if |parts| == 1 then parts[0]
    else parts[0] + [sep] + Join(parts[1..], sep)
  }

  lemma {:induction false} JoinSplit(s: string, sep: char)
    ensures Join(Split(s, sep), sep) == s
  {
    if s == [] {
    } else {
      var rest := Split(s[1..], sep);
      JoinSplit(s[1..], sep);
      var parts := Split(s, sep);
      if s[0] == sep {
        assert parts[1..] == rest;
      } else if |rest| > 1 {
        assert parts[1..] == rest[1..];
      }
    }
  }

  /** A separator-free head stays in front when the rest is split. */
  lemma {:induction false} SplitHead(head: string, tail: string, sep: char)
    requires sep !in head
    ensures Split(head + [sep] + tail, sep) == [head] + Split(tail, sep)
  {
    var s := head + [sep] + tail;
    if head == [] {
      assert s[1..] == tail;
    } else {
      SplitHead(head[1..], tail, sep);
      assert s[1..] == head[1..] + [sep] + tail;
      assert [head[0]] + head[1..] == head;
    }
  }

  lemma PartsStep(c: char, rest: seq<string>, tail: seq<string>)
    requires rest != []
    ensures [""] + (rest + tail) == ([""] + rest) + tail
    ensures [[c] + (rest + tail)[0]] + (rest + tail)[1..] == ([[c] + rest[0]] + rest[1..]) + tail
  {
  }

  /** A separator parts the parts. */
  lemma {:induction false} SplitConcat(a: string, b: string, sep: char)
    ensures Split(a + [sep] + b, sep) == Split(a, sep) + Split(b, sep)
  {
    var s := a + [sep] + b;
    if a == [] {
      assert s[1..] == b;
    } else {
      var rest, tail := Split(a[1..], sep), Split(b, sep);
      SplitConcat(a[1..], b, sep);
      assert s[1..] == a[1..] + [sep] + b && s[0] == a[0];
      PartsStep(a[0], rest, tail);
      assert Split(s, sep) == if a[0] == sep then [""] + (rest + tail) else [[a[0]] + (rest + tail)[0]] + (rest + tail)[1..];
    }
  }

  /** A separator-free prefix belongs to the first part. */
  lemma {:induction false} SplitPrefix(a: string, b: string, sep: char)
    requires sep !in a
    ensures Split(a + b, sep) == [a + Split(b, sep)[0]] + Split(b, sep)[1..]
  {
    if a == [] {
      assert a + b == b && "" + Split(b, sep)[0] == Split(b, sep)[0];
    } else {
      SplitPrefix(a[1..], b, sep);
      assert (a + b)[1..] == a[1..] + b;
      assert [a[0]] + (a[1..] + Split(b, sep)[0]) == a + Split(b, sep)[0];
    }
  }

  lemma {:induction false} SplitWhole(s: string, sep: char)
    requires sep !in s
    ensures Split(s, sep) == [s]
  {
    if s == [] {
    } else {
      SplitWhole(s[1..], sep);
      assert [s[0]] + s[1..] == s;
    }
  }

  /** Splitting undoes joining exactly when there is something to join and no part
      holds the separator. */
  lemma {:induction false} SplitJoin(parts: seq<string>, sep: char)
    ensures Split(Join(parts, sep), sep) == parts <==>
            parts != [] && forall i :: 0 <= i < |parts| ==> sep !in parts[i]
  {
    if parts != [] && forall i :: 0 <= i < |parts| ==> sep !in parts[i] {
      if |parts| == 1 {
        SplitWhole(parts[0], sep);
      } else {
        SplitHead(parts[0], Join(parts[1..], sep), sep);
        SplitJoin(parts[1..], sep);
      }
    }
  }

  // ----- Words between separators -----

  /** The non-empty pieces of a string between separators, cur being the one under way. */
  function Pieces(s: string, cur: string, stop: char -> bool): seq<string> {
    if s == "" then Flushed(cur)
    else if stop(s[0]) then Flushed(cur) + Pieces(s[1..], "", stop)
    else Pieces(s[1..], cur + [s[0]], stop)
  }

  function Flushed(cur: string): seq<string> { if cur == "" then [] else [cur] }

  predicate Free(s: string, stop: char -> bool) { forall c :: c in s ==> !stop(c) }

  /** From i to j stands a piece: no separator in it and one, or nothing, on either side. */
  predicate IsPiece(s: string, i: int, j: int, stop: char -> bool) {
    0 <= i < j <= |s| && Free(s[i..j], stop) && (i == 0 || stop(s[i - 1])) && (j == |s| || stop(s[j]))
  }

  ghost predicate HasPiece(s: string, w: string, stop: char -> bool) {
    exists i, j :: IsPiece(s, i, j, stop) && s[i..j] == w
  }

  lemma FreeIsOnePiece(s: string, w: string, stop: char -> bool)
    requires Free(s, stop)
    ensures HasPiece(s, w, stop) <==> w != "" && w == s
  {
    if w != "" && w == s { assert s[0..|s|] == s && IsPiece(s, 0, |s|, stop); }
    forall i, j | IsPiece(s, i, j, stop) ensures i == 0 && j == |s| && s[i..j] == s {
      assert forall k :: 0 <= k < |s| ==> s[k] in s;
    }
  }

  /** The pieces that start behind a separator are those of what follows it. */
  lemma TailPiece(a: string, c: char, b: string, i: nat, j: nat, stop: char -> bool)
    requires stop(c) && i <= j <= |b|
    ensures var s, n := a + [c] + b, |a| + 1;
      s[i + n..j + n] == b[i..j] && (IsPiece(s, i + n, j + n, stop) <==> IsPiece(b, i, j, stop))
  {
    var s, n := a + [c] + b, |a| + 1;
    assert s[i + n - 1] == if i == 0 then c else b[i - 1];
    assert j < |b| ==> s[j + n] == b[j];
  }

  /** A separator parts the pieces. */
  lemma PiecesApart(a: string, c: char, b: string, w: string, stop: char -> bool)
    requires Free(a, stop) && stop(c)
    ensures HasPiece(a + [c] + b, w, stop) <==> (w != "" && w == a) || HasPiece(b, w, stop)
  {
    var s, n := a + [c] + b, |a| + 1;
    forall i, j | IsPiece(s, i, j, stop) ensures (i == 0 && s[i..j] == a && a != "") || (i >= n && HasPiece(b, s[i..j], stop)) {
      if i < n {
        FirstPiece(a, c, b, i, j, stop);
      } else {
        TailPiece(a, c, b, i - n, j - n, stop);
      }
    }
    if w != "" && w == a { assert s[0..|a|] == a && IsPiece(s, 0, |a|, stop); }
    if HasPiece(b, w, stop) {
      var i, j :| IsPiece(b, i, j, stop) && b[i..j] == w;
      TailPiece(a, c, b, i, j, stop);
    }
  }

  lemma FirstPiece(a: string, c: char, b: string, i: int, j: int, stop: char -> bool)
    requires Free(a, stop) && stop(c) && IsPiece(a + [c] + b, i, j, stop) && i <= |a|
    ensures i == 0 && j == |a| && (a + [c] + b)[i..j] == a
  {
    var s := a + [c] + b;
    assert forall k :: i <= k < j ==> s[k] == s[i..j][k - i];
    assert forall k :: 0 <= k < |a| ==> s[k] in a;
    assert s[|a|] == c;
    assert s[0..|a|] == a;
  }

  /** The pieces are what stands between separators. */
  lemma {:induction false} PiecesAre(s: string, cur: string, w: string, stop: char -> bool)
    requires Free(cur, stop)
    ensures w in Pieces(s, cur, stop) <==> HasPiece(cur + s, w, stop)
  {
    if s == "" {
      assert cur + s == cur;
      FreeIsOnePiece(cur, w, stop);
    } else if stop(s[0]) {
      PiecesAre(s[1..], "", w, stop);
      assert "" + s[1..] == s[1..] && cur + s == cur + [s[0]] + s[1..];
      PiecesApart(cur, s[0], s[1..], w, stop);
    } else {
      PiecesAre(s[1..], cur + [s[0]], w, stop);
      assert cur + s == (cur + [s[0]]) + s[1..];
    }
  }

  // ----- Decimal printing -----

  const MIN64: int := -0x8000_0000_0000_0000
  const MAX64: int := 0x7fff_ffff_ffff_ffff

  function Digit(d: int): (c: char)
    requires 0 <= d < 10
  {
    '0' + d as char
  }

  function Digits(n: nat): (s: string)
    ensures s != [] && forall i :: 0 <= i < |s| ==> '0' <= s[i] <= '9'
  {
    if n < 10 then [Digit(n)] else Digits(n / 10) + [Digit(n % 10)]
  }

  /** What `%d` prints. */
  function Decimal(n: int): string {
    if n < 0 then "-" + Digits(-n) else Digits(n)
  }

  /** The number a string of decimal digits denotes. */
  function DigitsValue(s: string): nat
    requires forall i :: 0 <= i < |s| ==> '0' <= s[i] <= '9'
  {
    if s == [] then 0 else 10 * DigitsValue(s[..|s| - 1]) + (s[|s| - 1] - '0') as int
  }

  lemma {:induction false} DigitsDenote(n: nat)
    ensures DigitsValue(Digits(n)) == n
  {
    if n >= 10 {
      DigitsDenote(n / 10);
      assert Digits(n)[..|Digits(n)| - 1] == Digits(n / 10);
    } else {
      assert Digits(n)[..0] == [];
    }
  }

  lemma DecimalInjective(m: int, n: int)
    requires Decimal(m) == Decimal(n)
    ensures m == n
  {
    DecimalDenotes(m);
    DecimalDenotes(n);
  }

  /** The number a printed integer denotes. */
  function DecimalValue(s: string): int
    requires s != [] && (s[0] == '-' || '0' <= s[0] <= '9')
    requires forall i :: 1 <= i < |s| ==> '0' <= s[i] <= '9'
  {
    if s[0] == '-' then 0 - DigitsValue(s[1..]) as int else DigitsValue(s)
  }

  lemma DecimalDenotes(n: int)
    ensures var s := Decimal(n);
            && s != [] && (s[0] == '-' || '0' <= s[0] <= '9')
            && (forall i :: 1 <= i < |s| ==> '0' <= s[i] <= '9')
            && DecimalValue(s) == n
  {
    if n < 0 {
      Signed(Digits(-n));
      DigitsDenote(-n);
    } else {
      DigitsDenote(n);
    }
  }

  lemma Signed(digits: string)
    requires forall i :: 0 <= i < |digits| ==> '0' <= digits[i] <= '9'
    ensures var s := "-" + digits;
            && s[0] == '-' && (forall i :: 1 <= i < |s| ==> '0' <= s[i] <= '9')
            && DecimalValue(s) == 0 - DigitsValue(digits) as int
  {
    assert ("-" + digits)[1..] == digits;
  }

  lemma DecimalHasNo(n: int, c: char)
    requires !('0' <= c <= '9') && c != '-'
    ensures c !in Decimal(n)
  {
  }
}
