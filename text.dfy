/**
 * The operations of Python's `str` that the bot relies on, over `seq<char>`:
 * `startswith`, `endswith`, `in`, `find`, `split(sep)`, `join`, `replace`,
 * `strip`, `lower`, `splitlines`, `split()`, `isdigit`, `int(...)` and `str(n)`,
 * together with the slicing comprehension that cuts a string into chunks.
 */
module Text {
  import opened Wrappers

  predicate StartsWith(s: string, p: string) {
    |p| <= |s| && s[..|p|] == p
  }

  predicate EndsWith(s: string, p: string) {
    |p| <= |s| && s[|s| - |p|..] == p
  }

  /** `sub` occurs in `s` starting at index `i`. */
  predicate OccursAt(s: string, sub: string, i: int) {
    0 <= i && i + |sub| <= |s| && s[i..i + |sub|] == sub
  }

  lemma OccursShift(s: string, sub: string)
    requires |s| > 0
    ensures forall j :: 1 <= j ==> (OccursAt(s, sub, j) <==> OccursAt(s[1..], sub, j - 1))
  {
    forall j | 1 <= j
      ensures OccursAt(s, sub, j) <==> OccursAt(s[1..], sub, j - 1)
    {
      if j + |sub| <= |s| {
        assert s[1..][j - 1..j - 1 + |sub|] == s[j..j + |sub|];
      }
    }
  }

  /** Python's `s.find(sub)`: the first index at which `sub` occurs, if any. */
  function Find(s: string, sub: string): (r: Option<nat>)
    ensures r.Some? ==> OccursAt(s, sub, r.value)
    ensures r.Some? ==> forall j :: 0 <= j < r.value ==> !OccursAt(s, sub, j)
    ensures r.None? ==> forall j :: 0 <= j ==> !OccursAt(s, sub, j)
    decreases |s|
  {
    if |sub| > |s| then None
    else if s[..|sub|] == sub then
      assert s[0..|sub|] == s[..|sub|];
      Some(0)
    else
      OccursShift(s, sub);
      assert s[0..|sub|] == s[..|sub|];
      match Find(s[1..], sub)
      case None => None
      case Some(k) => Some(k + 1)
  }

  /** A single character occurs where it stands. */
  lemma CharOccurs(s: string, i: int)
    requires 0 <= i < |s|
    ensures OccursAt(s, [s[i]], i)
  {
    assert s[i..i + 1] == [s[i]];
  }

  /** The first occurrence is what `find` returns. */
  lemma FindFirst(s: string, sub: string, i: nat)
    requires OccursAt(s, sub, i) && forall j :: 0 <= j < i ==> !OccursAt(s, sub, j)
    ensures Find(s, sub) == Some(i)
  {
  }

  /** A character that does not occur in `s` is not a substring of it. */
  lemma CharAbsent(s: string, c: char)
    requires forall i :: 0 <= i < |s| ==> s[i] != c
    ensures !Contains(s, [c])
  {
    forall i | 0 <= i && i + 1 <= |s|
      ensures !OccursAt(s, [c], i)
    {
      assert s[i..i + 1][0] == s[i];
    }
  }

  /** Python's `sub in s`. */
  predicate Contains(s: string, sub: string) {
    Find(s, sub).Some?
  }

  lemma ContainsAt(s: string, sub: string, i: int)
    requires OccursAt(s, sub, i)
    ensures Contains(s, sub)
  {
  }

  /** Python's `s.split(sep)` for a non-empty separator. */
  function Split(s: string, sep: string): (parts: seq<string>)
    requires |sep| > 0
    ensures |parts| >= 1
    decreases |s|
  {
    match Find(s, sep)
    case None => [s]
    case Some(i) => [s[..i]] + Split(s[i + |sep|..], sep)
  }

  /** Python's `sep.join(parts)`. */
  function Join(parts: seq<string>, sep: string): string
  {
    if |parts| == 0 then ""
    else if |parts| == 1 then parts[0]
    else parts[0] + sep + Join(parts[1..], sep)
  }

  lemma JoinCons(p: string, rest: seq<string>, sep: string)
    requires |rest| >= 1
    ensures Join([p] + rest, sep) == p + sep + Join(rest, sep)
  {
    assert ([p] + rest)[1..] == rest;
  }

  /** Splitting and joining again with the same separator gives back the string. */
  lemma {:induction false} JoinSplit(s: string, sep: string)
    requires |sep| > 0
    ensures Join(Split(s, sep), sep) == s
    decreases |s|
  {
    match Find(s, sep)
    case None =>
    case Some(i) =>
      JoinSplit(s[i + |sep|..], sep);
      JoinCons(s[..i], Split(s[i + |sep|..], sep), sep);
      assert s[..i] + sep + s[i + |sep|..] == s by {
        assert s[i..i + |sep|] == sep;
        assert s == s[..i] + s[i..i + |sep|] + s[i + |sep|..];
      }
  }

  /** No piece of a split contains the separator. */
  lemma {:induction false} SplitPiecesFree(s: string, sep: string)
    requires |sep| > 0
    ensures forall k :: 0 <= k < |Split(s, sep)| ==> !Contains(Split(s, sep)[k], sep)
    decreases |s|
  {
    match Find(s, sep)
    case None =>
    case Some(i) =>
      SplitPiecesFree(s[i + |sep|..], sep);
      PrefixBeforeFirstFree(s, sep, i);
  }

  lemma PrefixBeforeFirstFree(s: string, sep: string, i: nat)
    requires |sep| > 0 && i <= |s|
    requires forall j :: 0 <= j < i ==> !OccursAt(s, sep, j)
    ensures !Contains(s[..i], sep)
  {
    if Contains(s[..i], sep) {
      var j := Find(s[..i], sep).value;
      assert s[..i][j..j + |sep|] == s[j..j + |sep|];
      assert OccursAt(s, sep, j);
      assert false;
    }
  }

  function Last<T>(xs: seq<T>): T
    requires |xs| > 0
  {
    xs[|xs| - 1]
  }

  /** `IsSubsequence(xs, ys)`: `xs` is `ys` with some elements left out, order kept. */
  predicate IsSubsequence<T(==)>(xs: seq<T>, ys: seq<T>)
    decreases |ys|
  {
    if xs == [] then true
    else if ys == [] then false
    else if Last(xs) == Last(ys) then IsSubsequence(xs[..|xs| - 1], ys[..|ys| - 1])
    else IsSubsequence(xs, ys[..|ys| - 1])
  }

  lemma {:induction false} SubsequenceDropLast<T>(xs: seq<T>, ys: seq<T>, y: T)
    requires IsSubsequence(xs, ys)
    ensures IsSubsequence(xs, ys + [y])
    decreases |ys|, 1
  {
    var ys' := ys + [y];
    assert ys'[..|ys'| - 1] == ys;
    if xs != [] && Last(xs) == y {
      SubsequenceShorter(xs, ys);
    }
  }

  /** Dropping the last element of a subsequence keeps it a subsequence. */
  lemma {:induction false} SubsequenceShorter<T>(xs: seq<T>, ys: seq<T>)
    requires xs != [] && IsSubsequence(xs, ys)
    ensures IsSubsequence(xs[..|xs| - 1], ys)
    decreases |ys|, 0
  {
    if ys == [] {
      assert false;
    } else if Last(xs) == Last(ys) {
      SubsequenceDropLast(xs[..|xs| - 1], ys[..|ys| - 1], Last(ys));
      assert ys[..|ys| - 1] + [Last(ys)] == ys;
    } else {
      SubsequenceShorter(xs, ys[..|ys| - 1]);
      SubsequenceDropLast(xs[..|xs| - 1], ys[..|ys| - 1], Last(ys));
      assert ys[..|ys| - 1] + [Last(ys)] == ys;
    }
  }

  lemma SplitUnfold(s: string, sep: string, i: nat)
    requires |sep| > 0 && Find(s, sep) == Some(i)
    ensures Split(s, sep) == [s[..i]] + Split(s[i + |sep|..], sep)
  {
  }

  lemma LastOfCons<T>(x: T, xs: seq<T>)
    requires |xs| > 0
    ensures Last([x] + xs) == Last(xs)
  {
  }

  /** The first character of `sep` does not occur again in `sep`, so occurrences cannot overlap. */
  predicate HeadUnique(sep: string)
  {
    |sep| > 0 && forall d :: 0 < d < |sep| ==> sep[d] != sep[0]
  }

  lemma OccurrencesApart(s: string, sep: string, p: int, q: int)
    requires HeadUnique(sep) && OccursAt(s, sep, p) && OccursAt(s, sep, q) && p < q
    ensures q - p >= |sep|
  {
    if q - p < |sep| {
      OccurrenceChar(s, sep, p, q - p);
    }
  }

  lemma OccurrenceChar(s: string, sub: string, i: int, d: int)
    requires OccursAt(s, sub, i) && 0 <= d < |sub|
    ensures s[i + d] == sub[d]
  {
    assert s[i..i + |sub|][d] == s[i + d];
  }

  /**
   * After a string ending in a separator whose occurrences cannot overlap, a
   * tail free of the separator is exactly the last piece of the split.
   */
  lemma {:induction false} SplitLastAfterMarker(x: string, sep: string, b: string)
    requires HeadUnique(sep) && EndsWith(x, sep) && !Contains(b, sep)
    ensures Contains(x + b, sep)
    ensures Last(Split(x + b, sep)) == b
    decreases |x|
  {
    var s := x + b;
    var q := |x| - |sep|;
    MarkerOccurs(x, sep, b);
    ContainsAt(s, sep, q);
    var i := Find(s, sep).value;
    var rest := s[i + |sep|..];
    SplitUnfold(s, sep, i);
    LastOfCons(s[..i], Split(rest, sep));
    if i == q {
      assert rest == b;
    } else {
      OccurrencesApart(s, sep, i, q);
      var x' := x[i + |sep|..];
      assert rest == x' + b;
      SuffixEndsWith(x, sep, i + |sep|);
      SplitLastAfterMarker(x', sep, b);
    }
  }

  lemma MarkerOccurs(x: string, sep: string, b: string)
    requires EndsWith(x, sep)
    ensures OccursAt(x + b, sep, |x| - |sep|)
  {
    assert (x + b)[|x| - |sep|..|x|] == x[|x| - |sep|..];
  }

  lemma SuffixEndsWith(x: string, sep: string, k: nat)
    requires EndsWith(x, sep) && k <= |x| - |sep|
    ensures EndsWith(x[k..], sep)
  {
    assert x[k..][|x| - k - |sep|..] == x[|x| - |sep|..];
  }

  /** An occurrence lying wholly inside the first part of `a + t` is an occurrence in `a`. */
  lemma OccursInPrefix(a: string, t: string, sub: string, j: int)
    requires OccursAt(a + t, sub, j) && j + |sub| <= |a|
    ensures Contains(a, sub)
  {
    assert (a + t)[j..j + |sub|] == a[j..j + |sub|];
    ContainsAt(a, sub, j);
  }

  /** In a head free of a separator followed by that separator, the first occurrence is where the head ends. */
  lemma FindAfterFreeHead(a: string, t: string, sep: string)
    requires HeadUnique(sep) && !Contains(a, sep) && StartsWith(t, sep)
    ensures Find(a + t, sep) == Some(|a|)
  {
    var s := a + t;
    assert s[|a|..|a| + |sep|] == t[..|sep|];
    forall j | 0 <= j < |a|
      ensures !OccursAt(s, sep, j)
    {
      if OccursAt(s, sep, j) {
        if j + |sep| <= |a| {
          OccursInPrefix(a, t, sep, j);
        } else {
          OccurrencesApart(s, sep, j, |a|);
        }
      }
    }
    FindFirst(s, sep, |a|);
  }

  /**
   * A head free of a separator whose occurrences cannot overlap, followed by
   * a tail that starts with the separator, is the first piece of the split.
   */
  lemma SplitFirstPiece(a: string, t: string, sep: string)
    requires HeadUnique(sep) && !Contains(a, sep) && StartsWith(t, sep)
    ensures Split(a + t, sep)[0] == a
  {
    var s := a + t;
    FindAfterFreeHead(a, t, sep);
    SplitUnfold(s, sep, |a|);
    assert s[..|a|] == a;
  }

  /** A head free of the separator, then the separator: the head is split off as the first piece. */
  lemma SplitConsFree(a: string, j: string, sep: string)
    requires HeadUnique(sep) && !Contains(a, sep)
    ensures Split(a + sep + j, sep) == [a] + Split(j, sep)
  {
    var t := sep + j;
    var s := a + t;
    assert a + sep + j == s;
    assert t[..|sep|] == sep;
    FindAfterFreeHead(a, t, sep);
    SplitUnfold(s, sep, |a|);
    assert s[..|a|] == a;
    assert s[|a| + |sep|..] == j;
  }

  /** Joining pieces free of the separator and splitting again gives back the pieces. */
  lemma {:induction false} SplitJoin(parts: seq<string>, sep: string)
    requires HeadUnique(sep) && |parts| >= 1
    requires forall k :: 0 <= k < |parts| ==> !Contains(parts[k], sep)
    ensures Split(Join(parts, sep), sep) == parts
    decreases |parts|
  {
    if |parts| > 1 {
      var rest := parts[1..];
      forall k | 0 <= k < |rest|
        ensures !Contains(rest[k], sep)
      {
        assert rest[k] == parts[k + 1];
      }
      SplitJoin(rest, sep);
      assert parts == [parts[0]] + rest;
      JoinCons(parts[0], rest, sep);
      SplitConsFree(parts[0], Join(rest, sep), sep);
    }
  }

  /** Python's `s.replace(old, new)` for a non-empty `old`. */
  function Replace(s: string, pattern: string, replacement: string): string
    requires |pattern| > 0
  {
    Join(Split(s, pattern), replacement)
  }

  /** Replacing a pattern that does not occur leaves the string as it is. */
  lemma ReplaceAbsent(s: string, pattern: string, replacement: string)
    requires |pattern| > 0
    requires !Contains(s, pattern)
    ensures Replace(s, pattern, replacement) == s
  {
  }

  /** Python's whitespace characters (`str.isspace`). */
  const Whitespace: set<char> := {
    ' ', '\t', '\n', '\r', '\U{B}', '\U{C}', '\U{1C}', '\U{1D}', '\U{1E}', '\U{1F}',
    '\U{85}', '\U{A0}', '\U{1680}', '\U{2000}', '\U{2001}', '\U{2002}', '\U{2003}',
    '\U{2004}', '\U{2005}', '\U{2006}', '\U{2007}', '\U{2008}', '\U{2009}', '\U{200A}',
    '\U{2028}', '\U{2029}', '\U{202F}', '\U{205F}', '\U{3000}'
  }

  /** Python's line boundaries (`str.splitlines`); `\r\n` counts as one. */
  const LineBreaks: set<char> := {
    '\n', '\r', '\U{B}', '\U{C}', '\U{1C}', '\U{1D}', '\U{1E}', '\U{85}', '\U{2028}', '\U{2029}'
  }

  /** The first index of a character of `cs` in `s`, if any. */
  function FindAny(s: string, cs: set<char>): (r: Option<nat>)
    ensures r.Some? ==> r.value < |s| && s[r.value] in cs
    ensures r.Some? ==> forall j :: 0 <= j < r.value ==> s[j] !in cs
    ensures r.None? ==> forall j :: 0 <= j < |s| ==> s[j] !in cs
    decreases |s|
  {
    if |s| == 0 then None
    else if s[0] in cs then Some(0)
    else match FindAny(s[1..], cs)
      case None => None
      case Some(k) => Some(k + 1)
  }

  /** Python's `s.lstrip(chars)`. */
  function TrimLeft(s: string, cs: set<char>): (r: string)
    ensures |r| <= |s| && r == s[|s| - |r|..]
    ensures r == [] || r[0] !in cs
    ensures forall i :: 0 <= i < |s| - |r| ==> s[i] in cs
    decreases |s|
  {
    if |s| > 0 && s[0] in cs then TrimLeft(s[1..], cs) else s
  }

  /** Python's `s.rstrip(chars)`. */
  function TrimRight(s: string, cs: set<char>): (r: string)
    ensures |r| <= |s| && r == s[..|r|]
    ensures r == [] || r[|r| - 1] !in cs
    ensures forall i :: |r| <= i < |s| ==> s[i] in cs
    decreases |s|
  {
    if |s| > 0 && s[|s| - 1] in cs then TrimRight(s[..|s| - 1], cs) else s
  }

  /** Python's `s.strip(chars)`: the longest infix whose ends are not in `cs`. */
  function StripChars(s: string, cs: set<char>): string
  {
    TrimRight(TrimLeft(s, cs), cs)
  }

  /** Python's `s.strip()`. */
  function Strip(s: string): string
  {
    StripChars(s, Whitespace)
  }

  /** What `strip` keeps has both ends outside `cs`. */
  lemma StripCharsEnds(s: string, cs: set<char>)
    ensures StripChars(s, cs) == [] || (StripChars(s, cs)[0] !in cs && Last(StripChars(s, cs)) !in cs)
  {
    var t := TrimLeft(s, cs);
    var r := TrimRight(t, cs);
    if r != [] {
      assert r == t[..|r|];
      assert r[0] == t[0];
    }
  }

  /** A leading character of `cs` is skipped by the left trim. */
  lemma TrimLeftSkips(c: char, t: string, cs: set<char>)
    requires c in cs
    ensures TrimLeft([c] + t, cs) == TrimLeft(t, cs)
  {
    assert ([c] + t)[1..] == t;
  }

  /** An occurrence lying wholly inside the middle part of `u + v + w` is an occurrence in `v`. */
  lemma OccursInMiddle(u: string, v: string, w: string, sub: string, j: int)
    requires OccursAt(u + v + w, sub, j) && |u| <= j && j + |sub| <= |u| + |v|
    ensures Contains(v, sub)
  {
    assert (u + v + w)[j..j + |sub|] == v[j - |u|..j - |u| + |sub|];
    ContainsAt(v, sub, j - |u|);
  }

  /** Stripping twice is stripping once. */
  lemma StripCharsIdempotent(s: string, cs: set<char>)
    ensures StripChars(StripChars(s, cs), cs) == StripChars(s, cs)
  {
    StripCharsEnds(s, cs);
    var r := StripChars(s, cs);
    assert TrimLeft(r, cs) == r;
    assert TrimRight(r, cs) == r;
  }

  /** Left-trimming a run of characters of `cs` in front of a string that does not start with one. */
  lemma {:induction false} TrimLeftRun(a: string, m: string, cs: set<char>)
    requires forall i :: 0 <= i < |a| ==> a[i] in cs
    requires m == [] || m[0] !in cs
    ensures TrimLeft(a + m, cs) == m
    decreases |a|
  {
    if a == [] {
      assert a + m == m;
    } else {
      assert (a + m)[1..] == a[1..] + m;
      TrimLeftRun(a[1..], m, cs);
    }
  }

  /** Right-trimming a run of characters of `cs` behind a string that does not end with one. */
  lemma {:induction false} TrimRightRun(m: string, b: string, cs: set<char>)
    requires forall i :: 0 <= i < |b| ==> b[i] in cs
    requires m == [] || Last(m) !in cs
    ensures TrimRight(m + b, cs) == m
    decreases |b|
  {
    if b == [] {
      assert m + b == m;
    } else {
      var b' := b[..|b| - 1];
      assert (m + b)[..|m + b| - 1] == m + b';
      TrimRightRun(m, b', cs);
    }
  }

  /** Stripping `a + m + b`, whose ends `a` and `b` are all in `cs`, leaves `m` when its ends are not. */
  lemma StripCharsFrame(a: string, m: string, b: string, cs: set<char>)
    requires forall i :: 0 <= i < |a| ==> a[i] in cs
    requires forall i :: 0 <= i < |b| ==> b[i] in cs
    requires m != [] && m[0] !in cs && Last(m) !in cs
    ensures StripChars(a + m + b, cs) == m
  {
    assert a + m + b == a + (m + b);
    TrimLeftRun(a, m + b, cs);
    TrimRightRun(m, b, cs);
  }

  /** A string with no character of `cs` is its own strip. */
  lemma StripCharsNone(s: string, cs: set<char>)
    requires forall i :: 0 <= i < |s| ==> s[i] !in cs
    ensures StripChars(s, cs) == s
  {
  }

  function LowerChar(c: char): char
  {
    if 'A' <= c <= 'Z' then (c as int + 32) as char else c
  }

  /** Python's `s.lower()`, restricted to ASCII letters. */
  function Lower(s: string): (r: string)
    ensures |r| == |s|
    ensures forall i :: 0 <= i < |s| ==> r[i] == LowerChar(s[i])
  {
    seq(|s|, i requires 0 <= i < |s| => LowerChar(s[i]))
  }

  /** Python's `s.splitlines()`: lines without their terminators, no trailing empty line. */
  function SplitLines(s: string): (lines: seq<string>)
    ensures s == [] ==> lines == []
    ensures forall k, j :: 0 <= k < |lines| && 0 <= j < |lines[k]| ==> lines[k][j] !in LineBreaks
    decreases |s|
  {
    if s == [] then []
    else match FindAny(s, LineBreaks)
      case None => [s]
      case Some(i) =>
        var width := if s[i] == '\r' && i + 1 < |s| && s[i + 1] == '\n' then 2 else 1;
        [s[..i]] + SplitLines(s[i + width..])
  }

  /** A non-empty string with no character of `cs`. */
  predicate RunOutside(w: string, cs: set<char>)
  {
    w != [] && forall j :: 0 <= j < |w| ==> w[j] !in cs
  }

  /** The maximal runs of characters outside `cs`, left to right. */
  function Runs(s: string, cs: set<char>): seq<string>
    decreases |s|
  {
    var t := TrimLeft(s, cs);
    if t == [] then []
    else match FindAny(t, cs)
      case None => [t]
      case Some(k) => [t[..k]] + Runs(t[k..], cs)
  }

  /** Every run is non-empty and holds no character of `cs`. */
  lemma {:induction false} RunsOutside(s: string, cs: set<char>)
    ensures forall k :: 0 <= k < |Runs(s, cs)| ==> RunOutside(Runs(s, cs)[k], cs)
    decreases |s|
  {
    var t := TrimLeft(s, cs);
    if t != [] {
      match FindAny(t, cs)
      case None =>
        assert RunOutside(t, cs);
      case Some(i) =>
        HeadRunOutside(t, cs, i);
        RunsOutside(t[i..], cs);
        ConsRuns(t[..i], Runs(t[i..], cs), cs);
    }
  }

  /** The prefix before the first character of `cs` is a run when the string does not start with one. */
  lemma HeadRunOutside(t: string, cs: set<char>, i: nat)
    requires t != [] && t[0] !in cs
    requires FindAny(t, cs) == Some(i)
    ensures 0 < i < |t| && RunOutside(t[..i], cs)
  {
  }

  lemma ConsRuns(head: string, rest: seq<string>, cs: set<char>)
    requires RunOutside(head, cs)
    requires forall k :: 0 <= k < |rest| ==> RunOutside(rest[k], cs)
    ensures forall k :: 0 <= k < |[head] + rest| ==> RunOutside(([head] + rest)[k], cs)
  {
    forall k | 0 <= k < |[head] + rest|
      ensures RunOutside(([head] + rest)[k], cs)
    {
      if k > 0 {
        assert ([head] + rest)[k] == rest[k - 1];
      }
    }
  }

  /** Python's `s.split()`: the maximal runs of non-whitespace. */
  function Words(s: string): (ws: seq<string>)
    ensures forall k :: 0 <= k < |ws| ==> ws[k] != []
    ensures forall k, j :: 0 <= k < |ws| && 0 <= j < |ws[k]| ==> ws[k][j] !in Whitespace
  {
    RunsOutside(s, Whitespace);
    Runs(s, Whitespace)
  }

  /** The comprehension `[s[i:i+n] for i in range(0, len(s), n)]`. */
  function Chunks(s: string, n: nat): (chunks: seq<string>)
    requires n > 0
    decreases |s|
  {
    if |s| == 0 then []
    else if |s| <= n then [s]
    else [s[..n]] + Chunks(s[n..], n)
  }

  /** String concatenation of a list of pieces, Python's `"".join(pieces)`. */
  function Concat(pieces: seq<string>): string
  {
    if pieces == [] then "" else pieces[0] + Concat(pieces[1..])
  }

  /**
   * The chunks concatenate back to the string; each is non-empty and at most
   * `n` long, and every chunk but the last is exactly `n` long.
   */
  lemma {:induction false} ChunksSpec(s: string, n: nat)
    requires n > 0
    ensures var cs := Chunks(s, n);
            && Concat(cs) == s
            && (forall k :: 0 <= k < |cs| ==> 0 < |cs[k]| <= n)
            && (forall k :: 0 <= k < |cs| - 1 ==> |cs[k]| == n)
    decreases |s|
  {
    if |s| == 0 {
    } else if |s| <= n {
    } else {
      ChunksSpec(s[n..], n);
      var rest := Chunks(s[n..], n);
      assert Chunks(s, n) == [s[..n]] + rest;
      assert ([s[..n]] + rest)[1..] == rest;
      assert s[..n] + s[n..] == s;
    }
  }

  function DigitChar(d: nat): char
    requires d < 10
  {
    "0123456789"[d]
  }

  predicate IsDigitChar(c: char) {
    '0' <= c <= '9'
  }

  /** Python's `s.isdigit()`, restricted to ASCII digits. */
  predicate IsDigits(s: string) {
    |s| > 0 && forall i :: 0 <= i < |s| ==> IsDigitChar(s[i])
  }

  /** Python's `str(n)` for a natural number. */
  function NatToString(n: nat): (r: string)
    ensures IsDigits(r)
  {
    if n < 10 then [DigitChar(n)] else NatToString(n / 10) + [DigitChar(n % 10)]
  }

  /** Python's `str(i)` for an integer. */
  function IntToString(i: int): string
  {
    if i < 0 then "-" + NatToString(-i) else NatToString(i)
  }

  /** The value of a string of decimal digits. */
  function DigitValue(c: char): (d: nat)
    requires IsDigitChar(c)
    ensures d < 10
  {
    c as int - '0' as int
  }

  function DigitsValue(s: string): nat
    requires forall i :: 0 <= i < |s| ==> IsDigitChar(s[i])
  {
    if s == [] then 0
    else DigitsValue(s[..|s| - 1]) * 10 + DigitValue(s[|s| - 1])
  }

  /** Reading back a printed number gives the number. */
  lemma {:induction false} NatToStringRoundTrip(n: nat)
    ensures DigitsValue(NatToString(n)) == n
  {
    if n >= 10 {
      NatToStringRoundTrip(n / 10);
      var s := NatToString(n / 10) + [DigitChar(n % 10)];
      assert s[..|s| - 1] == NatToString(n / 10);
    }
  }

  /**
   * The digits `int` accepts: ASCII digits, where a single underscore may
   * stand between two digits (`1_000`), but not first, last or doubled.
   */
  predicate IsGroupedDigits(t: string) {
    && |t| > 0 && IsDigitChar(t[0]) && IsDigitChar(t[|t| - 1])
    && (forall k :: 0 <= k < |t| ==> IsDigitChar(t[k]) || t[k] == '_')
    && !Contains(t, "__")
  }

  /** The text with its underscores removed. */
  function Ungrouped(t: string): (r: string)
    ensures (forall k :: 0 <= k < |t| ==> IsDigitChar(t[k]) || t[k] == '_') ==>
              forall k :: 0 <= k < |r| ==> IsDigitChar(r[k])
    ensures (forall k :: 0 <= k < |t| ==> t[k] != '_') ==> r == t
  {
    if t == [] then []
    else (if t[0] == '_' then [] else [t[0]]) + Ungrouped(t[1..])
  }

  /** The value of a run of grouped digits. */
  function GroupedValue(t: string): nat
    requires IsGroupedDigits(t)
  {
    DigitsValue(Ungrouped(t))
  }

  /** A run of plain digits is accepted with its own value. */
  lemma DigitsGrouped(d: string)
    requires IsDigits(d)
    ensures IsGroupedDigits(d) && GroupedValue(d) == DigitsValue(d)
  {
  }

  /** A string with at most one underscore holds no doubled underscore. */
  lemma SingleUnderscore(t: string, i: int)
    requires forall k :: 0 <= k < |t| && k != i ==> t[k] != '_'
    ensures !Contains(t, "__")
  {
    forall j | 0 <= j && j + 2 <= |t|
      ensures !OccursAt(t, "__", j)
    {
      if j == i {
        assert t[j..j + 2][1] == t[j + 1];
      } else {
        assert t[j..j + 2][0] == t[j];
      }
    }
  }

  /** Underscores between digits are ignored: `int("1_000") == 1000`. */
  lemma UnderscoreSeparated()
    ensures ParseInt("1_000") == Some(1000)
  {
    var t := "1_000";
    assert forall i :: 0 <= i < |t| ==> t[i] !in Whitespace;
    StripCharsNone(t, Whitespace);
    SingleUnderscore(t, 1);
    assert Ungrouped(t) == "1000" by {
      assert t[1..] == "_000" && t[2..] == "000";
    }
    assert DigitsValue("1000") == 1000 by {
      assert "1000"[..3] == "100" && "100"[..2] == "10" && "10"[..1] == "1";
    }
  }

  /** An underscore that is doubled, first or last is refused. */
  lemma MisplacedUnderscores()
    ensures ParseSigned("1__0").None? && ParseSigned("_1").None? && ParseSigned("1_").None?
  {
    assert "1__0"[1..3] == "__";
    ContainsAt("1__0", "__", 1);
  }

  /** Python's `int(t)` on a string with no surrounding whitespace. */
  function ParseSigned(t: string): (r: Option<int>)
  {
    if |t| > 0 && (t[0] == '-' || t[0] == '+') then
      if IsGroupedDigits(t[1..]) then
        var magnitude: int := GroupedValue(t[1..]);
        Some(if t[0] == '-' then -magnitude else magnitude)
      else None
    else if IsGroupedDigits(t) then Some(GroupedValue(t))
    else None
  }

  /**
   * Python's `int(s)` on a string: surrounding whitespace, an optional sign and
   * ASCII digits, single underscores allowed between two digits; anything else
   * raises `ValueError` (here `None`).
   */
  function ParseInt(s: string): (r: Option<int>)
  {
    ParseSigned(Strip(s))
  }

  lemma DigitsNotSpace(s: string)
    requires forall k :: 0 <= k < |s| ==> IsDigitChar(s[k]) || s[k] == '-'
    ensures forall k :: 0 <= k < |s| ==> s[k] !in Whitespace
  {
    forall k | 0 <= k < |s| ensures s[k] !in Whitespace {
      var c := s[k];
      assert IsDigitChar(c) || c == '-';
    }
  }

  /** A string of digits and minus signs is parsed without stripping anything. */
  lemma StripSigned(s: string)
    requires forall k :: 0 <= k < |s| ==> IsDigitChar(s[k]) || s[k] == '-'
    ensures ParseInt(s) == ParseSigned(s)
  {
    DigitsNotSpace(s);
    StripCharsNone(s, Whitespace);
  }

  /** `int(str(i)) == i`. */
  lemma ParseIntRoundTrip(i: int)
    ensures ParseInt(IntToString(i)) == Some(i)
  {
    var n: nat := if i < 0 then -i else i;
    var digits := NatToString(n);
    if i < 0 {
      NegativeRoundTrip(n);
      assert IntToString(i) == "-" + digits;
    } else {
      PositiveRoundTrip(n);
      assert IntToString(i) == digits;
    }
  }

  lemma PositiveRoundTrip(n: nat)
    ensures ParseInt(NatToString(n)) == Some(n)
  {
    var d := NatToString(n);
    NatToStringRoundTrip(n);
    StripSigned(d);
    DigitsGrouped(d);
    assert d[0] != '-' && d[0] != '+';
  }

  lemma NegativeRoundTrip(n: nat)
    ensures ParseInt("-" + NatToString(n)) == Some(-(n as int))
  {
    var d := NatToString(n);
    NatToStringRoundTrip(n);
    MinusDigits(d);
    StripSigned("-" + d);
    ParseMinus(d);
  }

  lemma MinusDigits(d: string)
    requires IsDigits(d)
    ensures forall k :: 0 <= k < |"-" + d| ==> IsDigitChar(("-" + d)[k]) || ("-" + d)[k] == '-'
  {
    var s := "-" + d;
    forall k | 0 <= k < |s|
      ensures IsDigitChar(s[k]) || s[k] == '-'
    {
      if k > 0 {
        assert s[k] == d[k - 1];
      }
    }
  }

  lemma ParseMinus(d: string)
    requires IsDigits(d)
    ensures ParseSigned("-" + d) == Some(-(DigitsValue(d) as int))
  {
    DigitsGrouped(d);
    assert ("-" + d)[1..] == d;
  }
}
