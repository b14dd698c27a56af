/**
  The `pathlib` views of a "/"-separated path string that the backend uses:
  `parts`, `name`, `suffix` and `stem`.
*/
module PyPath {
  import opened PyText

  /** `Path(p).parts` of a relative path (empty and "." segments are never in a skip set). */
  function Parts(p: string): (r: seq<string>)
    ensures |r| >= 1
  {
    Split(p, "/")
  }

  /** Some component of `parts` is in `skip` (`any(s in parts for s in skip)`). */
  predicate AnyIn(parts: seq<string>, skip: set<string>) {
    exists k | 0 <= k < |parts| :: parts[k] in skip
  }

  /** The components of a joined path are skipped exactly when those of one of its halves are. */
  lemma AnyInAppend(a: seq<string>, b: seq<string>, skip: set<string>)
    ensures AnyIn(a + b, skip) <==> AnyIn(a, skip) || AnyIn(b, skip)
  {
    if AnyIn(a + b, skip) {
      var k :| 0 <= k < |a + b| && (a + b)[k] in skip;
      if k >= |a| {
        assert b[k - |a|] in skip;
      }
    }
    if AnyIn(a, skip) {
      var k :| 0 <= k < |a| && a[k] in skip;
      assert (a + b)[k] in skip;
    }
    if AnyIn(b, skip) {
      var k :| 0 <= k < |b| && b[k] in skip;
      assert (a + b)[|a| + k] in skip;
    }
  }

  /** `Path(p).name`: the last component, ignoring trailing separators. */
  function Name(p: string): (r: string)
    ensures '/' !in r
  {
    var ps := Split(RStripChar(p, '/'), "/");
    SplitPiecesLackSep(RStripChar(p, '/'), "/", |ps| - 1);
    ContainsChar(ps[|ps| - 1], '/');
    ps[|ps| - 1]
  }

  /** The index of the dot that starts the suffix of `name`, or -1 when the name has no suffix. */
  function SuffixDot(name: string): (i: int)
    ensures i == -1 || (0 < i < |name| - 1 && name[i] == '.')
    ensures i >= 0 ==> '.' !in name[i + 1..]
  {
    var i := LastIndexOfChar(name, '.');
    if 0 < i < |name| - 1 then i else -1
  }

  /** The suffix of a file name: from the last dot on, unless the name starts or ends with that dot. */
  function NameSuffix(n: string): string {
    var i := SuffixDot(n);
    if i < 0 then "" else n[i..]
  }

  /** The stem of a file name: the name without its suffix. */
  function NameStem(n: string): string {
    var i := SuffixDot(n);
    if i < 0 then n else n[..i]
  }

  /** `Path(p).suffix`. */
  function Suffix(p: string): string {
    NameSuffix(Name(p))
  }

  /** `Path(p).stem`. */
  function Stem(p: string): string {
    NameStem(Name(p))
  }

  lemma StemAndSuffix(p: string)
    ensures Stem(p) + Suffix(p) == Name(p)
  {
  }

  /** The name of a path is its last component. */
  lemma NameOfLast(prefix: string, leaf: string)
    requires leaf != [] && '/' !in leaf
    ensures Name(prefix + "/" + leaf) == leaf
    ensures Name(prefix + "/" + leaf + "/") == leaf
  {
    var p := prefix + "/" + leaf;
    assert p[|p| - 1] == leaf[|leaf| - 1];
    assert RStripChar(p, '/') == p;
    assert (p + "/")[..|p + "/"| - 1] == p;
    assert RStripChar(p + "/", '/') == p;
    SplitLastPiece(prefix, '/', leaf);
  }

  /** A bare file name is its own name and its only component. */
  lemma PlainName(n: string)
    requires n != [] && '/' !in n
    ensures Name(n) == n && Parts(n) == [n]
  {
    assert n[|n| - 1] != '/';
    assert RStripChar(n, '/') == n;
    ContainsChar(n, '/');
  }

  /** A dot inside a name with no dot after it starts the suffix. */
  lemma SuffixAt(n: string, i: nat)
    requires 0 < i < |n| - 1 && n[i] == '.'
    requires forall k :: i < k < |n| ==> n[k] != '.'
    ensures NameSuffix(n) == n[i..] && NameStem(n) == n[..i]
  {
    assert LastIndexOfChar(n, '.') == i;
  }
}
