/**
  The Python `str` operations the backend relies on, over ASCII: `strip`, `lower`,
  `upper`, `in`, `find`, `split`, `rsplit`, `join`, `replace`, `splitlines`,
  slicing, `int()` and `str()` of integers.
*/
module PyText {
  import opened Wrappers

  // ---------------------------------------------------------------------------
  // Characters
  // ---------------------------------------------------------------------------

  /** `str.isspace()` on the ASCII range. */
  predicate IsSpace(c: char) {
    c == ' ' || c == '\t' || c == '\n' || c == '\r' || c == '\U{B}' || c == '\U{C}'
    || c == '\U{1C}' || c == '\U{1D}' || c == '\U{1E}' || c == '\U{1F}'
  }

  /** The ASCII line boundaries of `str.splitlines()` ("\r\n" counts as one, see `BreakWidth`). */
  predicate IsLineBreak(c: char) {
    c == '\n' || c == '\r' || c == '\U{B}' || c == '\U{C}' || c == '\U{1C}' || c == '\U{1D}' || c == '\U{1E}'
  }

  predicate IsDigit(c: char) { '0' <= c <= '9' }

  predicate IsAsciiUpper(c: char) { 'A' <= c <= 'Z' }

  predicate IsAsciiLower(c: char) { 'a' <= c <= 'z' }

  function LowerChar(c: char): char {
    if IsAsciiUpper(c) then (c as int + 32) as char else c
  }

  function UpperChar(c: char): char {
    if IsAsciiLower(c) then (c as int - 32) as char else c
  }

  /** `s.lower()` */
  function Lower(s: string): (r: string)
    ensures |r| == |s|
  {
    seq(|s|, i requires 0 <= i < |s| => LowerChar(s[i]))
  }

  /** `s.upper()` */
  function Upper(s: string): (r: string)
    ensures |r| == |s|
  {
    seq(|s|, i requires 0 <= i < |s| => UpperChar(s[i]))
  }

  lemma LowerIdempotent(s: string)
    ensures Lower(Lower(s)) == Lower(s)
  {
  }

  // ---------------------------------------------------------------------------
  // Trimming
  // ---------------------------------------------------------------------------

  /** `s.lstrip()`: drops the leading whitespace, and nothing else. */
  function LStrip(s: string): (r: string)
    ensures |r| <= |s| && r == s[|s| - |r|..]
    ensures r == [] || !IsSpace(r[0])
    decreases |s|
  {
    if |s| > 0 && IsSpace(s[0]) then LStrip(s[1..]) else s
  }

  lemma {:induction false} LStripDropsSpaces(s: string)
    ensures forall i :: 0 <= i < |s| - |LStrip(s)| ==> IsSpace(s[i])
    decreases |s|
  {
    if |s| > 0 && IsSpace(s[0]) {
      LStripDropsSpaces(s[1..]);
      assert forall i :: 1 <= i < |s| ==> s[1..][i - 1] == s[i];
    }
  }

  /** `s.rstrip()`: drops the trailing whitespace, and nothing else. */
  function RStrip(s: string): (r: string)
    ensures |r| <= |s| && r == s[..|r|]
    ensures r == [] || !IsSpace(r[|r| - 1])
    decreases |s|
  {
    if |s| > 0 && IsSpace(s[|s| - 1]) then RStrip(s[..|s| - 1]) else s
  }

  lemma {:induction false} RStripDropsSpaces(s: string)
    ensures forall i :: |RStrip(s)| <= i < |s| ==> IsSpace(s[i])
    decreases |s|
  {
    if |s| > 0 && IsSpace(s[|s| - 1]) {
      RStripDropsSpaces(s[..|s| - 1]);
    }
  }

  /** `s.strip()` */
  function Strip(s: string): (r: string)
    ensures |r| <= |s|
    ensures r == [] || (!IsSpace(r[0]) && !IsSpace(r[|r| - 1]))
  {
    RStrip(LStrip(s))
  }

  /** `s.lstrip(c)` for a single character `c`. */
  function LStripChar(s: string, c: char): (r: string)
    ensures |r| <= |s| && r == s[|s| - |r|..]
    ensures r == [] || r[0] != c
    decreases |s|
  {
    if |s| > 0 && s[0] == c then LStripChar(s[1..], c) else s
  }

  /** `s.rstrip(c)` for a single character `c`. */
  function RStripChar(s: string, c: char): (r: string)
    ensures |r| <= |s| && r == s[..|r|]
    ensures r == [] || r[|r| - 1] != c
    decreases |s|
  {
    if |s| > 0 && s[|s| - 1] == c then RStripChar(s[..|s| - 1], c) else s
  }

  // ---------------------------------------------------------------------------
  // Searching
  // ---------------------------------------------------------------------------

  predicate StartsWith(s: string, prefix: string) { prefix <= s }

  predicate EndsWith(s: string, suffix: string) {
    |suffix| <= |s| && s[|s| - |suffix|..] == suffix
  }

  /** `sub` occurs in `s` at index `i`. */
  predicate OccursAt(s: string, sub: string, i: int) {
    0 <= i && i + |sub| <= |s| && s[i..i + |sub|] == sub
  }

  /** `s.find(sub, start)`: the first index at or after `start` where `sub` occurs, or -1. */
  function IndexFrom(s: string, sub: string, start: nat): (r: int)
    ensures r == -1 || (start <= r && OccursAt(s, sub, r))
    ensures r == -1 ==> forall i :: start <= i ==> !OccursAt(s, sub, i)
    ensures r != -1 ==> forall i :: start <= i < r ==> !OccursAt(s, sub, i)
    decreases |s| - start
  {
    if start + |sub| > |s| then -1
    else if s[start..start + |sub|] == sub then start
    else IndexFrom(s, sub, start + 1)
  }

  /** `s.find(sub)` */
  function IndexOf(s: string, sub: string): (r: int)
    ensures r == -1 || OccursAt(s, sub, r)
    ensures r == -1 ==> forall i :: !OccursAt(s, sub, i)
    ensures r != -1 ==> forall i :: i < r ==> !OccursAt(s, sub, i)
  {
    IndexFrom(s, sub, 0)
  }

  /** `sub in s` */
  predicate Contains(s: string, sub: string) {
    IndexOf(s, sub) >= 0
  }

  lemma ContainsAt(s: string, sub: string, i: int)
    requires OccursAt(s, sub, i)
    ensures Contains(s, sub)
  {
  }

  /** Every text contains itself. */
  lemma ContainsSelf(s: string)
    ensures Contains(s, s)
  {
    assert OccursAt(s, s, 0);
  }

  lemma ContainsWitness(s: string, sub: string) returns (i: nat)
    requires Contains(s, sub)
    ensures OccursAt(s, sub, i)
  {
    i := IndexOf(s, sub);
  }

  /** An occurrence at `i` in `s[a..b]` is an occurrence at `a + i` in `s`. */
  lemma OccursInSlice(s: string, sub: string, a: nat, b: nat, i: nat)
    requires a <= b <= |s| && OccursAt(s[a..b], sub, i)
    ensures OccursAt(s, sub, a + i)
  {
    var t := s[a..b];
    var n := |sub|;
    var u := s[a + i..a + i + n];
    forall k | 0 <= k < n ensures u[k] == sub[k] {
      assert u[k] == s[a + i + k];
      assert t[i + k] == s[a + i + k];
      assert t[i..i + n][k] == t[i + k];
    }
  }

  /** An occurrence inside a slice is an occurrence in the whole string. */
  lemma ContainsInSlice(s: string, sub: string, a: nat, b: nat)
    requires a <= b <= |s| && Contains(s[a..b], sub)
    ensures Contains(s, sub)
  {
    var i := ContainsWitness(s[a..b], sub);
    OccursInSlice(s, sub, a, b, i);
  }

  /** An occurrence in a part of a concatenation is an occurrence in the whole. */
  lemma ContainsInConcat(x: string, y: string, sub: string)
    ensures Contains(x, sub) ==> Contains(x + y, sub)
    ensures Contains(y, sub) ==> Contains(x + y, sub)
  {
    if Contains(x, sub) {
      assert (x + y)[0..|x|] == x;
      ContainsInSlice(x + y, sub, 0, |x|);
    }
    if Contains(y, sub) {
      assert (x + y)[|x|..|x + y|] == y;
      ContainsInSlice(x + y, sub, |x|, |x + y|);
    }
  }

  /** `Strip(s)` is a contiguous piece of `s`. */
  lemma StripIsSlice(s: string) returns (a: nat)
    ensures a + |Strip(s)| <= |s| && Strip(s) == s[a..a + |Strip(s)|]
  {
    var l := LStrip(s);
    a := |s| - |l|;
    assert Strip(s) == RStrip(l);
    PrefixOfSuffix(s, a, l, Strip(s));
  }

  /** A prefix of the suffix of `s` from `a` is the slice of `s` from `a`. */
  lemma PrefixOfSuffix(s: string, a: nat, l: string, r: string)
    requires a <= |s| && l == s[a..] && |r| <= |l| && r == l[..|r|]
    ensures a + |r| <= |s| && r == s[a..a + |r|]
  {
  }

  /** What a strip of `s` contains, `s` contains. */
  lemma ContainsInStrip(s: string, sub: string)
    requires Contains(Strip(s), sub)
    ensures Contains(s, sub)
  {
    var a := StripIsSlice(s);
    ContainsInSlice(s, sub, a, a + |Strip(s)|);
  }

  /** What `s` without leading `c` contains, `s` contains. */
  lemma ContainsInLStripChar(s: string, c: char, sub: string)
    requires Contains(LStripChar(s, c), sub)
    ensures Contains(s, sub)
  {
    var r := LStripChar(s, c);
    assert r == s[|s| - |r|..|s|];
    ContainsInSlice(s, sub, |s| - |r|, |s|);
  }

  /** The last index of `c` in `s`, or -1 (`s.rfind(c)`). */
  function LastIndexOfChar(s: string, c: char): (r: int)
    ensures -1 <= r < |s|
    ensures r >= 0 ==> s[r] == c
    ensures forall i :: r < i < |s| ==> s[i] != c
    decreases |s|
  {
    if |s| == 0 then -1
    else if s[|s| - 1] == c then |s| - 1
    else LastIndexOfChar(s[..|s| - 1], c)
  }

  // ---------------------------------------------------------------------------
  // Slicing
  // ---------------------------------------------------------------------------

  /** `s[:n]` for `n >= 0` */
  function Take(s: string, n: nat): (r: string)
    ensures |r| <= n && r <= s
    ensures |s| <= n ==> r == s
    ensures n <= |s| ==> |r| == n
  {
    if |s| <= n then s else s[..n]
  }

  /** A Python slice bound: negative counts from the end, then clamped to `[0, n]`. */
  function SliceIndex(i: int, n: nat): (r: nat)
    ensures r <= n
  {
    if i < 0 then (if i + n < 0 then 0 else i + n) else if i > n then n else i
  }

  /** `s[i:j]` */
  function PySlice(s: string, i: int, j: int): string {
    var a := SliceIndex(i, |s|);
    var b := SliceIndex(j, |s|);
    if a < b then s[a..b] else []
  }

  // ---------------------------------------------------------------------------
  // Splitting and joining
  // ---------------------------------------------------------------------------

  /** `s.split(sep)` for a non-empty separator. */
  function Split(s: string, sep: string): (r: seq<string>)
    requires |sep| > 0
    ensures |r| >= 1
    decreases |s|
  {
    var i := IndexOf(s, sep);
    if i < 0 then [s] else [s[..i]] + Split(s[i + |sep|..], sep)
  }

  /** `sep.join(xs)` */
  function Join(sep: string, xs: seq<string>): string
    decreases |xs|
  {
    if |xs| == 0 then ""
    else if |xs| == 1 then xs[0]
    else xs[0] + sep + Join(sep, xs[1..])
  }

  lemma {:induction false} JoinSplit(s: string, sep: string)
    requires |sep| > 0
    ensures Join(sep, Split(s, sep)) == s
    decreases |s|
  {
    var i := IndexOf(s, sep);
    if i >= 0 {
      var rest := s[i + |sep|..];
      JoinSplit(rest, sep);
      JoinCons(sep, s[..i], Split(rest, sep));
      AroundFirst(s, sep);
    }
  }

  lemma JoinCons(sep: string, x: string, xs: seq<string>)
    requires |xs| >= 1
    ensures Join(sep, [x] + xs) == x + sep + Join(sep, xs)
  {
    assert ([x] + xs)[1..] == xs;
  }

  /** Around its first occurrence of `sep`, `s` is the text before, `sep` and the text after. */
  lemma AroundFirst(s: string, sep: string)
    requires |sep| > 0 && IndexOf(s, sep) >= 0
    ensures s == s[..IndexOf(s, sep)] + sep + s[IndexOf(s, sep) + |sep|..]
  {
    SplitAround(s, IndexOf(s, sep), |sep|);
  }

  /** Joining a tail of the pieces gives a suffix of joining all of them. */
  lemma {:induction false} JoinTailIsSuffix(sep: string, xs: seq<string>, k: nat)
    requires 0 < k < |xs|
    ensures EndsWith(Join(sep, xs), Join(sep, xs[k..]))
    decreases k
  {
    var whole := Join(sep, xs);
    assert whole == xs[0] + sep + Join(sep, xs[1..]);
    if k > 1 {
      JoinTailIsSuffix(sep, xs[1..], k - 1);
      assert xs[1..][k - 1..] == xs[k..];
    }
    var tail := Join(sep, xs[k..]);
    var mid := Join(sep, xs[1..]);
    assert EndsWith(mid, tail);
    assert mid[|mid| - |tail|..] == tail;
    assert whole[|whole| - |tail|..] == mid[|mid| - |tail|..];
  }

  /** What a joined piece contains, the joined string contains. */
  lemma {:induction false} JoinContainsPiece(sep: string, xs: seq<string>, k: nat, sub: string)
    requires k < |xs| && Contains(xs[k], sub)
    ensures Contains(Join(sep, xs), sub)
    decreases |xs|
  {
    if |xs| > 1 {
      var rest := Join(sep, xs[1..]);
      assert Join(sep, xs) == xs[0] + (sep + rest);
      if k == 0 {
        ContainsInConcat(xs[0], sep + rest, sub);
      } else {
        assert xs[1..][k - 1] == xs[k];
        JoinContainsPiece(sep, xs[1..], k - 1, sub);
        ContainsInConcat(sep, rest, sub);
        ContainsInConcat(xs[0], sep + rest, sub);
      }
    }
  }

  /** Joining a tail of the pieces of a split gives a suffix of the split string. */
  lemma SplitTailIsSuffix(s: string, sep: string, k: nat)
    requires |sep| > 0 && 0 < k < |Split(s, sep)|
    ensures EndsWith(s, Join(sep, Split(s, sep)[k..]))
  {
    JoinTailIsSuffix(sep, Split(s, sep), k);
    JoinSplit(s, sep);
  }

  /** What a suffix contains, the whole string contains. */
  lemma ContainsInSuffix(s: string, suffix: string, sub: string)
    requires EndsWith(s, suffix) && Contains(suffix, sub)
    ensures Contains(s, sub)
  {
    assert s[|s| - |suffix|..|s|] == suffix;
    ContainsInSlice(s, sub, |s| - |suffix|, |s|);
  }

  /** What a piece of a split contains, the split string contains. */
  lemma SplitPieceInside(s: string, sep: string, k: nat, sub: string)
    requires |sep| > 0 && k < |Split(s, sep)|
    requires Contains(Split(s, sep)[k], sub)
    ensures Contains(s, sub)
  {
    JoinContainsPiece(sep, Split(s, sep), k, sub);
    JoinSplit(s, sep);
  }

  /** A piece of a split occurs in the split text. */
  lemma SplitMemberOccurs(s: string, sep: string, w: string)
    requires |sep| > 0 && w in Split(s, sep)
    ensures Contains(s, w)
  {
    SplitPieceOccurs(s, sep, IndexOfItem(Split(s, sep), w), w);
  }

  lemma SplitPieceOccurs(s: string, sep: string, k: nat, w: string)
    requires |sep| > 0 && k < |Split(s, sep)| && Split(s, sep)[k] == w
    ensures Contains(s, w)
  {
    ContainsSelf(w);
    SplitPieceInside(s, sep, k, w);
  }

  lemma BeforeFirstOccurrence(s: string, sub: string)
    requires |sub| > 0 && IndexOf(s, sub) >= 0
    ensures !Contains(s[..IndexOf(s, sub)], sub)
  {
    var i := IndexOf(s, sub);
    if Contains(s[..i], sub) {
      var j := ContainsWitness(s[..i], sub);
      assert s[..i] == s[0..i];
      OccursInSlice(s, sub, 0, i, j);
    }
  }

  /** The split of `s` at index `i` around a separator of length `n`. */
  lemma SplitAround(s: string, i: nat, n: nat)
    requires i + n <= |s|
    ensures s == s[..i] + s[i..i + n] + s[i + n..]
  {
  }

  /** `s.split(sep, 1)`: the parts before and after the first `sep`, if there is one. */
  function SplitOnce(s: string, sep: string): (r: Option<(string, string)>)
    requires |sep| > 0
    ensures r.Some? <==> Contains(s, sep)
    ensures r.Some? ==> s == r.value.0 + sep + r.value.1 && !Contains(r.value.0, sep)
  {
    var i := IndexOf(s, sep);
    if i < 0 then None
    else
      BeforeFirstOccurrence(s, sep);
      SplitAround(s, i, |sep|);
      Some((s[..i], s[i + |sep|..]))
  }

  /** `s.rsplit(c, 1)` for a one-character separator, if `c` occurs. */
  function RSplitOnceChar(s: string, c: char): (r: Option<(string, string)>)
    ensures r.Some? <==> c in s
    ensures r.Some? ==> s == r.value.0 + [c] + r.value.1 && c !in r.value.1
  {
    var i := LastIndexOfChar(s, c);
    if i < 0 then None
    else
      assert s == s[..i] + [c] + s[i + 1..];
      Some((s[..i], s[i + 1..]))
  }

  /** `s.replace(a, b)` for single characters. */
  function ReplaceChar(s: string, a: char, b: char): (r: string)
    ensures |r| == |s|
    ensures forall i :: 0 <= i < |s| ==> r[i] == if s[i] == a then b else s[i]
  {
    seq(|s|, i requires 0 <= i < |s| => if s[i] == a then b else s[i])
  }

  /** Replacing `a` by `b` cannot create an occurrence of text that has no `b` in it. */
  lemma ReplaceCharKeepsOccurrence(s: string, a: char, b: char, sub: string)
    requires b !in sub && Contains(ReplaceChar(s, a, b), sub)
    ensures Contains(s, sub)
  {
    var r := ReplaceChar(s, a, b);
    var i := ContainsWitness(r, sub);
    forall k | 0 <= k < |sub| ensures s[i + k] == sub[k] {
      assert r[i..i + |sub|][k] == r[i + k];
      assert sub[k] != b;
    }
    assert s[i..i + |sub|] == sub;
    ContainsAt(s, sub, i);
  }

  /** `xs.index(x)` */
  function IndexOfItem<T(==)>(xs: seq<T>, x: T): (r: nat)
    requires x in xs
    ensures r < |xs| && xs[r] == x
    ensures forall j :: 0 <= j < r ==> xs[j] != x
  {
    if xs[0] == x then 0 else 1 + IndexOfItem(xs[1..], x)
  }

  /** No piece of `Split(s, sep)` contains the separator. */
  lemma {:induction false} SplitPiecesLackSep(s: string, sep: string, k: nat)
    requires |sep| > 0 && k < |Split(s, sep)|
    ensures !Contains(Split(s, sep)[k], sep)
    decreases |s|
  {
    var i := IndexOf(s, sep);
    if i >= 0 {
      if k == 0 {
        BeforeFirstOccurrence(s, sep);
      } else {
        SplitPiecesLackSep(s[i + |sep|..], sep, k - 1);
      }
    }
  }

  /** For a one-character `sub`, containment is membership. */
  lemma ContainsChar(s: string, c: char)
    ensures Contains(s, [c]) <==> c in s
  {
    if c in s {
      var j :| 0 <= j < |s| && s[j] == c;
      assert s[j..j + 1] == [c];
      ContainsAt(s, [c], j);
    }
    if Contains(s, [c]) {
      var j := ContainsWitness(s, [c]);
      assert s[j..j + 1] == [c];
      assert s[j] == c;
    }
  }

  /** The last piece of a split is what follows the last separator. */
  lemma {:induction false} SplitLastPiece(a: string, c: char, b: string)
    requires c !in b
    ensures var ps := Split(a + [c] + b, [c]); ps[|ps| - 1] == b
    decreases |a|
  {
    var s := a + [c] + b;
    assert OccursAt(s, [c], |a|);
    var i := IndexOf(s, [c]);
    ContainsChar(b, c);
    if i == |a| {
      assert s[i + 1..] == b;
    } else {
      assert s[i] == a[i];
      assert s[i + 1..] == a[i + 1..] + [c] + b;
      SplitLastPiece(a[i + 1..], c, b);
    }
  }

  /** `s.replace(pattern, replacement)` for a non-empty `pattern`: every occurrence, left to right, without overlap. */
  function Replace(s: string, pattern: string, replacement: string): string
    requires |pattern| > 0
    decreases |s|
  {
    var i := IndexOf(s, pattern);
    if i < 0 then s else s[..i] + replacement + Replace(s[i + |pattern|..], pattern, replacement)
  }

  /** Replacing with text that lacks `c` puts no `c` into a string that lacks it. */
  lemma {:induction false} ReplaceKeepsCharOut(s: string, pattern: string, replacement: string, c: char)
    requires |pattern| > 0 && c !in s && c !in replacement
    ensures c !in Replace(s, pattern, replacement)
    decreases |s|
  {
    var i := IndexOf(s, pattern);
    if i >= 0 {
      var rest := s[i + |pattern|..];
      SliceLacks(s, i + |pattern|, |s|, c);
      SliceLacks(s, 0, i, c);
      assert s[0..i] == s[..i] && s[i + |pattern|..|s|] == rest;
      ReplaceKeepsCharOut(rest, pattern, replacement, c);
      assert Replace(s, pattern, replacement) == s[..i] + replacement + Replace(rest, pattern, replacement);
    }
  }

  /** A slice of a string that lacks `c` lacks it too. */
  lemma SliceLacks(s: string, a: nat, b: nat, c: char)
    requires a <= b <= |s| && c !in s
    ensures c !in s[a..b]
  {
  }

  /** The index of the first line boundary at or after `i`, or `|s|`. */
  function LineEnd(s: string, i: nat): (k: nat)
    requires i <= |s|
    ensures i <= k <= |s|
    decreases |s| - i
  {
    if i == |s| || IsLineBreak(s[i]) then i else LineEnd(s, i + 1)
  }

  /** The width of the boundary starting at `k`: "\r\n" is one boundary of two characters. */
  function BreakWidth(s: string, k: nat): (w: nat)
    requires k < |s|
    ensures 1 <= w <= |s| - k
  {
    if s[k] == '\r' && k + 1 < |s| && s[k + 1] == '\n' then 2 else 1
  }

  /** Joining pieces that lack `sub` with a one-character separator that `sub` lacks creates no occurrence of `sub`. */
  lemma {:induction false} JoinLacks(c: char, xs: seq<string>, sub: string)
    requires |sub| > 0 && c !in sub
    requires forall k :: 0 <= k < |xs| ==> !Contains(xs[k], sub)
    ensures !Contains(Join([c], xs), sub)
    decreases |xs|
  {
    if |xs| >= 2 {
      var x := xs[0];
      var rest := Join([c], xs[1..]);
      assert forall k :: 0 <= k < |xs| - 1 ==> xs[1..][k] == xs[k + 1];
      JoinLacks(c, xs[1..], sub);
      var s := x + [c] + rest;
      assert Join([c], xs) == s;
      var n := |sub|;
      forall i | 0 <= i && i + n <= |s|
        ensures !OccursAt(s, sub, i)
      {
        if i + n <= |x| {
          assert x[i..i + n] == s[i..i + n];
          assert IndexOf(x, sub) == -1 && !OccursAt(x, sub, i);
        } else if i > |x| {
          assert rest[i - |x| - 1..i - |x| - 1 + n] == s[i..i + n];
          assert IndexOf(rest, sub) == -1 && !OccursAt(rest, sub, i - |x| - 1);
        } else {
          assert s[i..i + n][|x| - i] == c;
        }
      }
    }
  }

  /** The lines of `s[i..]`. */
  function LinesFrom(s: string, i: nat): (r: seq<string>)
    requires i <= |s|
    ensures i == |s| <==> r == []
    decreases |s| - i
  {
    if i == |s| then []
    else
      var e := LineEnd(s, i);
      if e == |s| then [s[i..]] else [s[i..e]] + LinesFrom(s, e + BreakWidth(s, e))
  }

  /** `s.splitlines()`: the lines without their terminators; no empty last line for a final terminator. */
  function SplitLines(s: string): (r: seq<string>)
    ensures s == [] <==> r == []
  {
    LinesFrom(s, 0)
  }

  /** Every line of `s[i..]` is the slice `s[a..b]` for some bounds. */
  lemma {:induction false} LinesFromSlice(s: string, i: nat, k: nat) returns (a: nat, b: nat)
    requires i <= |s| && k < |LinesFrom(s, i)|
    ensures a <= b <= |s| && LinesFrom(s, i)[k] == s[a..b]
    decreases |s| - i
  {
    var e := LineEnd(s, i);
    if e == |s| {
      a, b := i, |s|;
    } else if k == 0 {
      a, b := i, e;
    } else {
      a, b := LinesFromSlice(s, e + BreakWidth(s, e), k - 1);
    }
  }

  /** What a line of `SplitLines(s)` contains, `s` contains. */
  lemma SplitLinesInside(s: string, k: nat, sub: string)
    requires k < |SplitLines(s)| && Contains(SplitLines(s)[k], sub)
    ensures Contains(s, sub)
  {
    var a, b := LinesFromSlice(s, 0, k);
    ContainsInSlice(s, sub, a, b);
  }

  /** The index of the first whitespace character in `s`, or `|s|`. */
  function WordEnd(s: string): (k: nat)
    ensures k <= |s|
    ensures k < |s| ==> IsSpace(s[k])
    ensures forall i :: 0 <= i < k ==> !IsSpace(s[i])
    decreases |s|
  {
    if |s| == 0 || IsSpace(s[0]) then 0 else 1 + WordEnd(s[1..])
  }

  /** `s.split()[0]`, or None where Python raises IndexError (no non-blank word). */
  function FirstWord(s: string): (r: Option<string>)
    ensures r.Some? ==> |r.value| > 0 && forall i :: 0 <= i < |r.value| ==> !IsSpace(r.value[i])
  {
    var t := LStrip(s);
    if t == [] then None else Some(t[..WordEnd(t)])
  }

  // ---------------------------------------------------------------------------
  // Integers
  // ---------------------------------------------------------------------------

  function DigitChar(d: nat): char
    requires d < 10
  {
    ('0' as int + d) as char
  }

  function DigitValue(c: char): nat
    requires IsDigit(c)
  {
    c as int - '0' as int
  }

  /** `str(n)` for a natural number. */
  function NatToString(n: nat): (r: string)
    ensures |r| > 0 && forall i :: 0 <= i < |r| ==> IsDigit(r[i])
    decreases n
  {
    if n < 10 then [DigitChar(n)] else NatToString(n / 10) + [DigitChar(n % 10)]
  }

  /** `str(i)` */
  function IntToString(i: int): string {
    if i < 0 then "-" + NatToString(-i) else NatToString(i)
  }

  /** The value of a string of decimal digits. */
  function DigitsValue(d: string): nat
    requires forall i :: 0 <= i < |d| ==> IsDigit(d[i])
    decreases |d|
  {
    if |d| == 0 then 0 else DigitsValue(d[..|d| - 1]) * 10 + DigitValue(d[|d| - 1])
  }

  /** The digits of `int()`'s argument: digits, optionally grouped by single underscores. */
  predicate WellFormedDigits(d: string) {
    && |d| > 0 && IsDigit(d[0]) && IsDigit(d[|d| - 1])
    && (forall i :: 0 <= i < |d| ==> IsDigit(d[i]) || d[i] == '_')
    && (forall i :: 0 <= i < |d| - 1 && d[i] == '_' ==> IsDigit(d[i + 1]))
  }

  function RemoveUnderscores(d: string): (r: string)
    requires forall i :: 0 <= i < |d| ==> IsDigit(d[i]) || d[i] == '_'
    ensures forall i :: 0 <= i < |r| ==> IsDigit(r[i])
    decreases |d|
  {
    if |d| == 0 then ""
    else if d[0] == '_' then RemoveUnderscores(d[1..])
    else [d[0]] + RemoveUnderscores(d[1..])
  }

  /** An unsigned `int()` body, or None where Python raises ValueError. */
  function ParseDigits(d: string): Option<nat> {
    if WellFormedDigits(d) then Some(DigitsValue(RemoveUnderscores(d)))
    else None
  }

  /** `int(s)`: surrounding whitespace, an optional sign, then digits; None where Python raises ValueError. */
  function ParseInt(s: string): Option<int> {
    var t := Strip(s);
    if |t| > 0 && (t[0] == '-' || t[0] == '+') then
      match ParseDigits(t[1..])
      case Some(n) => var v: int := n; Some(if t[0] == '-' then -v else v)
      case None => None
    else
      match ParseDigits(t)
      case Some(n) => Some(n)
      case None => None
  }

  lemma {:induction false} DigitsOfNatToString(n: nat)
    ensures DigitsValue(NatToString(n)) == n
    decreases n
  {
    var s := NatToString(n);
    if n >= 10 {
      DigitsOfNatToString(n / 10);
      assert s[..|s| - 1] == NatToString(n / 10);
    }
  }

  lemma {:induction false} NoUnderscoresUnchanged(d: string)
    requires forall i :: 0 <= i < |d| ==> IsDigit(d[i])
    ensures RemoveUnderscores(d) == d
    decreases |d|
  {
    if |d| > 0 {
      NoUnderscoresUnchanged(d[1..]);
    }
  }

  lemma StripUnspaced(s: string)
    requires s == [] || (!IsSpace(s[0]) && !IsSpace(s[|s| - 1]))
    ensures Strip(s) == s
  {
    assert LStrip(s) == s;
  }

  lemma ParseDigitsOfNat(n: nat)
    ensures ParseDigits(NatToString(n)) == Some(n)
  {
    var d := NatToString(n);
    assert WellFormedDigits(d);
    NoUnderscoresUnchanged(d);
    DigitsOfNatToString(n);
  }

  /** `int(str(i)) == i`. */
  lemma ParseIntToString(i: int)
    ensures ParseInt(IntToString(i)) == Some(i)
  {
    var s := IntToString(i);
    if i < 0 {
      var d := NatToString(-i);
      assert s == "-" + d;
      StripUnspaced(s);
      assert s[1..] == d;
      ParseDigitsOfNat(-i);
    } else {
      StripUnspaced(s);
      ParseDigitsOfNat(i);
    }
  }
}
