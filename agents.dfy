/**
  The sub-agents of the healing pipeline (agents.py): test discovery, the
  choice and naming of generated test suites, the application of one fix, the
  CI poll verdict and the result of a run with nothing to test. File system,
  LLM and HTTP effects are inputs.
*/
module Agents {
  import opened Wrappers
  import opened PyText
  import opened PyPath
  import opened DockerRunner
  import opened Records
  import opened ResultsGenerator
  import opened GitUtils
  import opened LlmClient

  const MaxRetries := 5

  // ---------------------------------------------------------------------------
  // Discovery
  // ---------------------------------------------------------------------------

  /** Directories `_discover_tests` skips. */
  const TestSkipDirs: set<string> := {".git", "__pycache__", ".tox", "node_modules", ".venv", "venv"}

  /** The script globs, in the order `_discover_tests` walks them. */
  const ScriptExtensions: seq<string> := [".js", ".ts", ".jsx", ".tsx"]

  /**
    `any(s in p.parts for s in skip)` for the file at `p` below the clone
    directory whose absolute components are `root`: `rglob` yields absolute
    paths, so the clone directory's own components are tested too.
  */
  predicate InTestSkipDir(root: seq<string>, p: string) {
    AnyIn(root + Parts(p), TestSkipDirs)
  }

  /** A path the Python walk (`rglob("*.py")`) keeps: a test module by its stem. */
  predicate IsPythonTest(root: seq<string>, p: string) {
    EndsWith(Name(p), ".py") && !InTestSkipDir(root, p)
    && (StartsWith(Stem(p), "test_") || EndsWith(Stem(p), "_test"))
  }

  /** A path the walk for `ext` keeps: a test or spec script by its name. */
  predicate IsScriptTest(root: seq<string>, p: string, ext: string) {
    EndsWith(Name(p), ext) && !InTestSkipDir(root, p)
    && (Contains(Name(p), ".test.") || Contains(Name(p), ".spec."))
  }

  /** The Python tests among the first `k` paths of the walk, in walk order. */
  function PythonTests(root: seq<string>, paths: seq<string>, k: nat): seq<string>
    requires k <= |paths|
  {
    if k == 0 then []
    else PythonTests(root, paths, k - 1) + if IsPythonTest(root, paths[k - 1]) then [paths[k - 1]] else []
  }

  /** The `ext` scripts among the first `k` paths of the walk, in walk order. */
  function ScriptTests(root: seq<string>, paths: seq<string>, ext: string, k: nat): seq<string>
    requires k <= |paths|
  {
    if k == 0 then []
    else ScriptTests(root, paths, ext, k - 1) + if IsScriptTest(root, paths[k - 1], ext) then [paths[k - 1]] else []
  }

  /** The script tests of the first `e` script globs, glob after glob. */
  function ScriptTestsUpTo(root: seq<string>, paths: seq<string>, e: nat): seq<string>
    requires e <= |ScriptExtensions|
  {
    if e == 0 then [] else ScriptTestsUpTo(root, paths, e - 1) + ScriptTests(root, paths, ScriptExtensions[e - 1], |paths|)
  }

  /** What `_discover_tests` returns for a working tree whose files, relative and "/"-separated, are `paths` in walk order. */
  function Discovered(root: seq<string>, paths: seq<string>): seq<string> {
    PythonTests(root, paths, |paths|) + ScriptTestsUpTo(root, paths, |ScriptExtensions|)
  }

  /** One step of the Python walk: paths[k] is kept when it is a Python test. */
  method PythonStep(root: seq<string>, paths: seq<string>, k: nat, found: seq<string>) returns (next: seq<string>)
    requires k < |paths| && found == PythonTests(root, paths, k)
    ensures next == PythonTests(root, paths, k + 1)
  {
    next := found;
    if IsPythonTest(root, paths[k]) {
      next := next + [paths[k]];
    }
  }

  /** The Python walk of `_discover_tests`. */
  method DiscoverPython(root: seq<string>, paths: seq<string>) returns (found: seq<string>)
    ensures found == PythonTests(root, paths, |paths|)
  {
    found := [];
    var k := 0;
    while k < |paths|
      invariant 0 <= k <= |paths|
      invariant found == PythonTests(root, paths, k)
    {
      found := PythonStep(root, paths, k, found);
      k := k + 1;
    }
  }

  /** One step of the walk for `ext`: paths[k] is kept when it is a test script with that suffix. */
  method ScriptStep(root: seq<string>, paths: seq<string>, ext: string, k: nat, found: seq<string>) returns (next: seq<string>)
    requires k < |paths| && found == ScriptTests(root, paths, ext, k)
    ensures next == ScriptTests(root, paths, ext, k + 1)
  {
    next := found;
    if IsScriptTest(root, paths[k], ext) {
      next := next + [paths[k]];
    }
  }

  /** The walk of `_discover_tests` for one script glob. */
  method DiscoverScripts(root: seq<string>, paths: seq<string>, ext: string) returns (found: seq<string>)
    ensures found == ScriptTests(root, paths, ext, |paths|)
  {
    found := [];
    var k := 0;
    while k < |paths|
      invariant 0 <= k <= |paths|
      invariant found == ScriptTests(root, paths, ext, k)
    {
      found := ScriptStep(root, paths, ext, k, found);
      k := k + 1;
    }
  }

  /** One script glob of `_discover_tests`: its walk is appended to what was found so far. */
  method GlobStep(root: seq<string>, paths: seq<string>, e: nat, testFiles: seq<string>) returns (next: seq<string>)
    requires e < |ScriptExtensions| && testFiles == PythonTests(root, paths, |paths|) + ScriptTestsUpTo(root, paths, e)
    ensures next == PythonTests(root, paths, |paths|) + ScriptTestsUpTo(root, paths, e + 1)
  {
    var found := DiscoverScripts(root, paths, ScriptExtensions[e]);
    next := testFiles + found;
  }

  /** `_discover_tests`: the Python walk, then one walk per script glob. */
  method DiscoverTests(root: seq<string>, paths: seq<string>) returns (testFiles: seq<string>)
    ensures testFiles == Discovered(root, paths)
  {
    testFiles := DiscoverPython(root, paths);
    var e := 0;
    while e < |ScriptExtensions|
      invariant 0 <= e <= |ScriptExtensions|
      invariant testFiles == PythonTests(root, paths, |paths|) + ScriptTestsUpTo(root, paths, e)
    {
      testFiles := GlobStep(root, paths, e, testFiles);
      e := e + 1;
    }
  }

  lemma {:induction false} PythonTestsMembers(root: seq<string>, paths: seq<string>, k: nat, p: string)
    requires k <= |paths|
    ensures p in PythonTests(root, paths, k) <==> p in paths[..k] && IsPythonTest(root, p)
  {
    if k > 0 {
      PythonTestsMembers(root, paths, k - 1, p);
      assert paths[..k] == paths[..k - 1] + [paths[k - 1]];
    }
  }

  lemma {:induction false} ScriptTestsMembers(root: seq<string>, paths: seq<string>, ext: string, k: nat, p: string)
    requires k <= |paths|
    ensures p in ScriptTests(root, paths, ext, k) <==> p in paths[..k] && IsScriptTest(root, p, ext)
  {
    if k > 0 {
      ScriptTestsMembers(root, paths, ext, k - 1, p);
      assert paths[..k] == paths[..k - 1] + [paths[k - 1]];
      if IsScriptTest(root, paths[k - 1], ext) {
        assert ScriptTests(root, paths, ext, k) == ScriptTests(root, paths, ext, k - 1) + [paths[k - 1]];
      } else {
        assert ScriptTests(root, paths, ext, k) == ScriptTests(root, paths, ext, k - 1);
      }
    }
  }

  lemma {:induction false} ScriptTestsUpToMembers(root: seq<string>, paths: seq<string>, e: nat, p: string)
    requires e <= |ScriptExtensions|
    ensures p in ScriptTestsUpTo(root, paths, e) <==> p in paths && exists x :: 0 <= x < e && IsScriptTest(root, p, ScriptExtensions[x])
  {
    if e > 0 {
      ScriptTestsUpToMembers(root, paths, e - 1, p);
      ScriptTestsMembers(root, paths, ScriptExtensions[e - 1], |paths|, p);
      assert paths[..|paths|] == paths;
    }
  }

  /**
    A path is discovered exactly when it is a Python test by its stem or a
    script test by its name, outside every skipped directory.
  */
  lemma DiscoveredMembers(root: seq<string>, paths: seq<string>, p: string)
    ensures p in Discovered(root, paths) <==>
      p in paths && (IsPythonTest(root, p) || exists x :: 0 <= x < |ScriptExtensions| && IsScriptTest(root, p, ScriptExtensions[x]))
  {
    PythonTestsMembers(root, paths, |paths|, p);
    ScriptTestsUpToMembers(root, paths, |ScriptExtensions|, p);
    assert paths[..|paths|] == paths;
  }

  lemma {:induction false} PythonTestsAllPython(root: seq<string>, paths: seq<string>, k: nat)
    requires k <= |paths|
    ensures forall i :: 0 <= i < |PythonTests(root, paths, k)| ==> IsPythonTest(root, PythonTests(root, paths, k)[i])
  {
    if k > 0 {
      PythonTestsAllPython(root, paths, k - 1);
    }
  }

  lemma {:induction false} ScriptTestsUpToAllScripts(root: seq<string>, paths: seq<string>, e: nat)
    requires e <= |ScriptExtensions|
    ensures forall i :: 0 <= i < |ScriptTestsUpTo(root, paths, e)| ==> !EndsWith(Name(ScriptTestsUpTo(root, paths, e)[i]), ".py")
  {
    if e > 0 {
      ScriptTestsUpToAllScripts(root, paths, e - 1);
      var ext := ScriptExtensions[e - 1];
      var s := ScriptTests(root, paths, ext, |paths|);
      forall i | 0 <= i < |s|
        ensures !EndsWith(Name(s[i]), ".py")
      {
        ScriptTestsMembers(root, paths, ext, |paths|, s[i]);
        ScriptNameNotPython(Name(s[i]), ext);
      }
    }
  }

  /** A name ending in a script suffix does not end in ".py". */
  lemma ScriptNameNotPython(n: string, ext: string)
    requires ext in ScriptExtensions && EndsWith(n, ext)
    ensures !EndsWith(n, ".py")
  {
    assert n[|n| - |ext|..] == ext;
    assert n[|n| - 1] == ext[|ext| - 1];
  }

  /** Python tests are listed before every script test. */
  lemma DiscoveredPythonFirst(root: seq<string>, paths: seq<string>)
    ensures var d := Discovered(root, paths); var n := |PythonTests(root, paths, |paths|)|;
      && (forall i :: 0 <= i < n ==> IsPythonTest(root, d[i]))
      && (forall i :: n <= i < |d| ==> !EndsWith(Name(d[i]), ".py"))
  {
    PythonTestsAllPython(root, paths, |paths|);
    ScriptTestsUpToAllScripts(root, paths, |ScriptExtensions|);
  }

  /** No path is its own test when the clone directory lies below a skipped directory. */
  lemma {:induction false} SkippedRootDiscoversNothing(root: seq<string>, paths: seq<string>, p: string)
    requires AnyIn(root, TestSkipDirs)
    ensures p !in Discovered(root, paths)
  {
    AnyInAppend(root, Parts(p), TestSkipDirs);
    DiscoveredMembers(root, paths, p);
  }

  // ---------------------------------------------------------------------------
  // Test generation: candidate choice and naming
  // ---------------------------------------------------------------------------

  const SourceExtensions: set<string> := {".py", ".js", ".ts", ".jsx", ".tsx"}

  /** How many top-scored candidates get a generated test suite. */
  const MaxCandidates := 5

  /** A source file `_generate_tests` may write tests for. */
  predicate IsCandidate(f: IndexedFile) {
    Lower(Suffix(f.path)) in SourceExtensions
    && !Contains(Lower(f.path), "test") && !Contains(Lower(f.path), "spec") && !Contains(Lower(f.path), "setup")
  }

  /** The content length, doubled for files under "src/" or "lib/". */
  function ScoreOf(f: IndexedFile): (n: nat)
    ensures n == (if Contains(f.path, "src/") || Contains(f.path, "lib/") then 2 else 1) * |f.content|
  {
    if Contains(f.path, "src/") || Contains(f.path, "lib/") then |f.content| * 2 else |f.content|
  }

  datatype ScoredFile = ScoredFile(score: nat, file: IndexedFile)

  /** The scored entry of one indexed file: none unless it is a candidate. */
  function ScoredEntry(f: IndexedFile): (r: seq<ScoredFile>)
    ensures |r| <= 1
  {
    if IsCandidate(f) then [ScoredFile(ScoreOf(f), f)] else []
  }

  /** The scored candidates among the first `k` files, in index order. */
  function ScoredUpTo(files: seq<IndexedFile>, k: nat): seq<ScoredFile>
    requires k <= |files|
  {
    if k == 0 then [] else ScoredUpTo(files, k - 1) + ScoredEntry(files[k - 1])
  }

  /** One step of the scoring loop of `_generate_tests`: files[k] is scored when it is a candidate. */
  method ScoreStep(files: seq<IndexedFile>, k: nat, scored: seq<ScoredFile>) returns (next: seq<ScoredFile>)
    requires k < |files| && scored == ScoredUpTo(files, k)
    ensures next == ScoredUpTo(files, k + 1)
  {
    var f := files[k];
    next := scored;
    if IsCandidate(f) {
      next := next + [ScoredFile(ScoreOf(f), f)];
    }
  }

  /** The scoring loop of `_generate_tests`. */
  method ScoreFiles(files: seq<IndexedFile>) returns (scored: seq<ScoredFile>)
    ensures scored == ScoredUpTo(files, |files|)
  {
    scored := [];
    var k := 0;
    while k < |files|
      invariant 0 <= k <= |files|
      invariant scored == ScoredUpTo(files, k)
    {
      scored := ScoreStep(files, k, scored);
      k := k + 1;
    }
  }

  predicate ScoresNonIncreasing(xs: seq<ScoredFile>) {
    forall i, j :: 0 <= i < j < |xs| ==> xs[i].score >= xs[j].score
  }

  /** Puts `x` after every entry scoring at least as much: a later entry never overtakes an equal one. */
  function InsertByScore(sorted: seq<ScoredFile>, x: ScoredFile): (r: seq<ScoredFile>)
    ensures |r| == |sorted| + 1
  {
    if sorted == [] then [x]
    else if sorted[0].score < x.score then [x] + sorted
    else [sorted[0]] + InsertByScore(sorted[1..], x)
  }

  lemma {:induction false} InsertByScorePermutes(sorted: seq<ScoredFile>, x: ScoredFile)
    ensures multiset(InsertByScore(sorted, x)) == multiset(sorted) + multiset{x}
  {
    if sorted != [] && sorted[0].score >= x.score {
      InsertByScorePermutes(sorted[1..], x);
      assert sorted == [sorted[0]] + sorted[1..];
    }
  }

  predicate ScoresAtMost(xs: seq<ScoredFile>, bound: nat) {
    forall i :: 0 <= i < |xs| ==> xs[i].score <= bound
  }

  lemma {:induction false} InsertByScoreAtMost(sorted: seq<ScoredFile>, x: ScoredFile, bound: nat)
    requires ScoresAtMost(sorted, bound) && x.score <= bound
    ensures ScoresAtMost(InsertByScore(sorted, x), bound)
  {
    if sorted != [] && sorted[0].score >= x.score {
      InsertByScoreAtMost(sorted[1..], x, bound);
      var r := InsertByScore(sorted, x);
      forall i | 0 <= i < |r|
        ensures r[i].score <= bound
      {
        if i > 0 {
          assert r[i] == InsertByScore(sorted[1..], x)[i - 1];
        }
      }
    }
  }

  /** A head scoring at least every entry of a sorted tail makes a sorted sequence. */
  lemma ConsSorted(head: ScoredFile, tail: seq<ScoredFile>)
    requires ScoresAtMost(tail, head.score) && ScoresNonIncreasing(tail)
    ensures ScoresNonIncreasing([head] + tail)
  {
    var r := [head] + tail;
    forall i, j | 0 <= i < j < |r|
      ensures r[i].score >= r[j].score
    {
      assert r[j] == tail[j - 1];
      if i > 0 {
        assert r[i] == tail[i - 1];
      }
    }
  }

  lemma {:induction false} InsertByScoreSorted(sorted: seq<ScoredFile>, x: ScoredFile)
    requires ScoresNonIncreasing(sorted)
    ensures ScoresNonIncreasing(InsertByScore(sorted, x))
  {
    if sorted == [] {
    } else if sorted[0].score < x.score {
      assert ScoresAtMost(sorted, x.score);
      ConsSorted(x, sorted);
    } else {
      var tail := sorted[1..];
      assert ScoresNonIncreasing(tail);
      assert ScoresAtMost(tail, sorted[0].score);
      InsertByScoreSorted(tail, x);
      InsertByScoreAtMost(tail, x, sorted[0].score);
      ConsSorted(sorted[0], InsertByScore(tail, x));
    }
  }

  /** `sort(key=score, reverse=True)`: a stable sort by non-increasing score. */
  function SortByScore(xs: seq<ScoredFile>): (r: seq<ScoredFile>)
    ensures multiset(r) == multiset(xs)
    ensures ScoresNonIncreasing(r)
  {
    if xs == [] then []
    else
      var init := SortByScore(xs[..|xs| - 1]);
      InsertByScorePermutes(init, xs[|xs| - 1]);
      InsertByScoreSorted(init, xs[|xs| - 1]);
      assert xs == xs[..|xs| - 1] + [xs[|xs| - 1]];
      InsertByScore(init, xs[|xs| - 1])
  }

  /** The entries of `xs` that score `s`, in their order in `xs`. */
  function WithScore(xs: seq<ScoredFile>, s: nat): seq<ScoredFile> {
    if xs == [] then [] else (if xs[0].score == s then [xs[0]] else []) + WithScore(xs[1..], s)
  }

  lemma {:induction false} WithScoreAppend(a: seq<ScoredFile>, b: seq<ScoredFile>, s: nat)
    ensures WithScore(a + b, s) == WithScore(a, s) + WithScore(b, s)
  {
    if a != [] {
      assert (a + b)[0] == a[0];
      assert (a + b)[1..] == a[1..] + b;
      WithScoreAppend(a[1..], b, s);
    } else {
      assert a + b == b;
    }
  }

  lemma {:induction false} WithScoreNone(xs: seq<ScoredFile>, s: nat)
    requires forall i :: 0 <= i < |xs| ==> xs[i].score != s
    ensures WithScore(xs, s) == []
  {
    if xs != [] {
      WithScoreNone(xs[1..], s);
    }
  }

  lemma WithScoreCons(y: ScoredFile, rest: seq<ScoredFile>, s: nat)
    ensures WithScore([y] + rest, s) == WithScore([y], s) + WithScore(rest, s)
  {
    assert ([y] + rest)[1..] == rest;
    assert [y][1..] == [];
  }

  /** An entry scoring more than the head of a sorted sequence ties with none of it. */
  lemma InsertFrontStable(sorted: seq<ScoredFile>, x: ScoredFile, s: nat)
    requires ScoresNonIncreasing(sorted) && sorted != [] && sorted[0].score < x.score
    ensures WithScore([x] + sorted, s) == WithScore(sorted, s) + WithScore([x], s)
  {
    WithScoreCons(x, sorted, s);
    if s == x.score {
      WithScoreNone(sorted, s);
    } else {
      assert [x][1..] == [];
    }
  }

  /** Inserting into a sorted sequence puts `x` after every entry that ties with it. */
  lemma {:induction false} InsertByScoreStable(sorted: seq<ScoredFile>, x: ScoredFile, s: nat)
    requires ScoresNonIncreasing(sorted)
    ensures WithScore(InsertByScore(sorted, x), s) == WithScore(sorted, s) + WithScore([x], s)
  {
    if sorted == [] {
      assert [x][1..] == [];
    } else if sorted[0].score < x.score {
      InsertFrontStable(sorted, x, s);
    } else {
      var head := sorted[0];
      var tail := sorted[1..];
      assert ScoresNonIncreasing(tail);
      assert sorted == [head] + tail;
      InsertByScoreStable(tail, x, s);
      WithScoreCons(head, InsertByScore(tail, x), s);
      WithScoreCons(head, tail, s);
    }
  }

  /**
    The sort is stable: the entries of any one score come out in the order
    they went in, so ties at the cut keep the walk order.
  */
  lemma {:induction false} SortByScoreStable(xs: seq<ScoredFile>, s: nat)
    ensures WithScore(SortByScore(xs), s) == WithScore(xs, s)
  {
    if xs != [] {
      var init := xs[..|xs| - 1];
      var last := xs[|xs| - 1];
      SortByScoreStable(init, s);
      InsertByScoreStable(SortByScore(init), last, s);
      assert xs == init + [last];
      WithScoreAppend(init, [last], s);
    }
  }

  /** The `[:5]` slice. */
  function TopScored(xs: seq<ScoredFile>): (r: seq<ScoredFile>)
    ensures |r| == if |xs| < MaxCandidates then |xs| else MaxCandidates
    ensures r <= xs
  {
    if |xs| < MaxCandidates then xs else xs[..MaxCandidates]
  }

  /** The files `_generate_tests` writes suites for: at most five candidates of the index, by non-increasing score. */
  function CandidatesOf(files: seq<IndexedFile>): (c: seq<IndexedFile>)
    ensures |c| <= MaxCandidates
    ensures forall i :: 0 <= i < |c| ==> IsCandidate(c[i]) && c[i] in files
    ensures forall i, j :: 0 <= i < j < |c| ==> ScoreOf(c[i]) >= ScoreOf(c[j])
  {
    ScoredUpToCandidates(files, |files|);
    TopChosen(ScoredUpTo(files, |files|), files);
    FilesOf(TopScored(SortByScore(ScoredUpTo(files, |files|))))
  }

  function FilesOf(top: seq<ScoredFile>): (r: seq<IndexedFile>)
    ensures |r| == |top| && forall i :: 0 <= i < |r| ==> r[i] == top[i].file
  {
    seq(|top|, i requires 0 <= i < |top| => top[i].file)
  }

  lemma {:induction false} ScoredUpToCandidates(files: seq<IndexedFile>, k: nat)
    requires k <= |files|
    ensures forall x :: x in ScoredUpTo(files, k) ==> IsCandidate(x.file) && x.file in files && x.score == ScoreOf(x.file)
  {
    if k > 0 {
      var prev := ScoredUpTo(files, k - 1);
      var last := ScoredEntry(files[k - 1]);
      ScoredUpToCandidates(files, k - 1);
      assert ScoredUpTo(files, k) == prev + last;
      assert files[k - 1] in files;
      forall x: ScoredFile | x in prev + last
        ensures IsCandidate(x.file) && x.file in files && x.score == ScoreOf(x.file)
      {
        if x !in prev {
          ScoredEntryMember(files[k - 1], x);
        }
      }
    }
  }

  lemma ScoredEntryMember(f: IndexedFile, x: ScoredFile)
    requires x in ScoredEntry(f)
    ensures x.file == f && IsCandidate(f) && x.score == ScoreOf(f)
  {
  }

  /** The top five of scored candidates, by score, are candidates of the index in score order. */
  lemma TopChosen(scored: seq<ScoredFile>, files: seq<IndexedFile>)
    requires forall x :: x in scored ==> IsCandidate(x.file) && x.file in files && x.score == ScoreOf(x.file)
    ensures var c := FilesOf(TopScored(SortByScore(scored)));
      && |c| <= MaxCandidates
      && (forall i :: 0 <= i < |c| ==> IsCandidate(c[i]) && c[i] in files)
      && (forall i, j :: 0 <= i < j < |c| ==> ScoreOf(c[i]) >= ScoreOf(c[j]))
  {
    var sorted := SortByScore(scored);
    var top := TopScored(sorted);
    forall i | 0 <= i < |top|
      ensures IsCandidate(top[i].file) && top[i].file in files && top[i].score == ScoreOf(top[i].file)
    {
      assert top[i] == sorted[i];
      assert sorted[i] in multiset(scored);
    }
    assert ScoresNonIncreasing(top) by {
      forall i, j | 0 <= i < j < |top| ensures top[i].score >= top[j].score {
        assert top[i] == sorted[i] && top[j] == sorted[j];
      }
    }
    FilesOfTop(top, files, FilesOf(top));
  }

  /** The files of scored candidates, in score order. */
  lemma FilesOfTop(top: seq<ScoredFile>, files: seq<IndexedFile>, c: seq<IndexedFile>)
    requires |c| == |top| && forall i :: 0 <= i < |c| ==> c[i] == top[i].file
    requires forall i :: 0 <= i < |top| ==> IsCandidate(top[i].file) && top[i].file in files && top[i].score == ScoreOf(top[i].file)
    requires ScoresNonIncreasing(top)
    ensures forall i :: 0 <= i < |c| ==> IsCandidate(c[i]) && c[i] in files
    ensures forall i, j :: 0 <= i < j < |c| ==> ScoreOf(c[i]) >= ScoreOf(c[j])
  {
    forall i, j | 0 <= i < j < |c| ensures ScoreOf(c[i]) >= ScoreOf(c[j]) {
      assert top[i].score >= top[j].score;
    }
  }

  /** A candidate left out of the top five scores no more than any kept one. */
  lemma CandidatesBest(files: seq<IndexedFile>)
    ensures var sorted := SortByScore(ScoredUpTo(files, |files|));
      forall i, j :: 0 <= i < |CandidatesOf(files)| <= j < |sorted| ==> sorted[j].score <= ScoreOf(CandidatesOf(files)[i])
  {
    var scored := ScoredUpTo(files, |files|);
    var sorted := SortByScore(scored);
    var top := TopScored(sorted);
    ScoredUpToCandidates(files, |files|);
    forall i | 0 <= i < |top|
      ensures top[i].score == ScoreOf(top[i].file)
    {
      assert top[i] == sorted[i];
      assert sorted[i] in multiset(scored);
    }
  }

  /** The name of the suite generated for a source file: `test_{stem}.py`, or `{stem}.test{suffix}`. */
  function TestFileName(path: string): string {
    if Suffix(path) == ".py" then "test_" + Stem(path) + ".py" else Stem(path) + ".test" + Suffix(path)
  }

  /** No skipped directory has a dot after its first character. */
  lemma TestSkipDirsDots(d: string, k: nat)
    requires d in TestSkipDirs && 0 < k < |d|
    ensures d[k] != '.'
  {
  }

  /** A bare name with a dot after its first character is no skipped directory, so it is never skipped. */
  lemma BareNameNotSkipped(root: seq<string>, n: string, k: nat)
    requires !AnyIn(root, TestSkipDirs) && '/' !in n && 0 < k < |n| && n[k] == '.'
    ensures Name(n) == n && !InTestSkipDir(root, n)
  {
    PlainName(n);
    AnyInAppend(root, Parts(n), TestSkipDirs);
    if n in TestSkipDirs {
      TestSkipDirsDots(n, k);
    }
  }

  /** `test_{stem}.py` is a Python test at the clone root. */
  lemma PythonTestNameDiscovered(root: seq<string>, stem: string)
    requires !AnyIn(root, TestSkipDirs) && '/' !in stem
    ensures IsPythonTest(root, "test_" + stem + ".py") && Suffix("test_" + stem + ".py") == ".py"
  {
    var n := "test_" + stem + ".py";
    BareNameNotSkipped(root, n, |n| - 3);
    SuffixAt(n, |n| - 3);
    assert Stem(n) == "test_" + stem;
  }

  /** `{stem}.test{ext}` is a test script at the clone root. */
  lemma ScriptTestNameDiscovered(root: seq<string>, stem: string, ext: string)
    requires !AnyIn(root, TestSkipDirs) && stem != [] && '/' !in stem && ext in ScriptExtensions
    ensures IsScriptTest(root, stem + ".test" + ext, ext) && Suffix(stem + ".test" + ext) == ext
  {
    assert |ext| >= 2 && ext[0] == '.' && '/' !in ext && forall k :: 0 < k < |ext| ==> ext[k] != '.';
    ScriptNameShape(root, stem, ext);
  }

  /** `{stem}.test{ext}` for an extension that is a dot and then no dot or "/". */
  lemma ScriptNameShape(root: seq<string>, stem: string, ext: string)
    requires !AnyIn(root, TestSkipDirs) && stem != [] && '/' !in stem
    requires |ext| >= 2 && ext[0] == '.' && '/' !in ext && forall k :: 0 < k < |ext| ==> ext[k] != '.'
    ensures IsScriptTest(root, stem + ".test" + ext, ext) && Suffix(stem + ".test" + ext) == ext
  {
    var n := stem + ".test" + ext;
    var p := |stem| + 5;
    assert n[p..] == ext;
    BareNameNotSkipped(root, n, p);
    SuffixAt(n, p);
    assert OccursAt(n, ".test.", |stem|);
    ContainsAt(n, ".test.", |stem|);
  }

  /**
    The suite generated for a source file with an exact listed suffix (what
    the file index lets through) is found by `_discover_tests` at the clone
    root, and `_run_locally` accepts it.
  */
  lemma TestFileNameDiscovered(root: seq<string>, path: string, python: string, hasBunLock: bool)
    requires !AnyIn(root, TestSkipDirs) && Suffix(path) in SourceExtensions
    ensures var n := TestFileName(path);
      && n in Discovered(root, [n])
      && LocalInvocation(n, python, hasBunLock).Execute?
  {
    var ext := Suffix(path);
    var stem := Stem(path);
    assert SuffixDot(Name(path)) > 0;
    var n := TestFileName(path);
    if ext == ".py" {
      PythonTestNameDiscovered(root, stem);
    } else {
      var x := if ext == ".js" then 0 else if ext == ".ts" then 1 else if ext == ".jsx" then 2 else 3;
      assert ScriptExtensions[x] == ext;
      ScriptTestNameDiscovered(root, stem, ext);
    }
    DiscoveredMembers(root, [n], n);
  }

  /**
    The suites `_generate_tests` writes: for each chosen candidate whose write
    succeeded, in order, its test file name and the code written.
  */
  function GeneratedUpTo(candidates: seq<IndexedFile>, replies: seq<Result<string, string>>, written: seq<bool>, k: nat): seq<(string, string)>
    requires k <= |candidates| <= |replies| && |candidates| <= |written|
  {
    if k == 0 then []
    else
      GeneratedUpTo(candidates, replies, written, k - 1)
        + if written[k - 1] then [(TestFileName(candidates[k - 1].path), GenerateTestsForCode(replies[k - 1]))] else []
  }

  /** One step of the writing loop of `_generate_tests`. */
  method GenerateStep(candidates: seq<IndexedFile>, replies: seq<Result<string, string>>, written: seq<bool>, k: nat,
                      suites: seq<(string, string)>) returns (next: seq<(string, string)>)
    requires k < |candidates| <= |replies| && |candidates| <= |written|
    requires suites == GeneratedUpTo(candidates, replies, written, k)
    ensures next == GeneratedUpTo(candidates, replies, written, k + 1)
  {
    var testCode := GenerateTestsForCode(replies[k]);
    var testFilename := TestFileName(candidates[k].path);
    next := suites;
    if written[k] {
      next := next + [(testFilename, testCode)];
    }
  }

  /** The names of the written suites, in order. */
  function SuiteNames(suites: seq<(string, string)>): (r: seq<string>)
    ensures |r| == |suites| && forall i :: 0 <= i < |suites| ==> r[i] == suites[i].0
  {
    seq(|suites|, i requires 0 <= i < |suites| => suites[i].0)
  }

  /**
    `_generate_tests` given, per chosen candidate, the model's answer (or the
    text it raised) and whether writing the test file succeeded. It returns the
    names of the suites written, and the suites themselves.
  */
  method GenerateTests(files: seq<IndexedFile>, replies: seq<Result<string, string>>, written: seq<bool>)
    returns (generated: seq<string>, suites: seq<(string, string)>)
    requires |CandidatesOf(files)| <= |replies| && |CandidatesOf(files)| <= |written|
    ensures suites == GeneratedUpTo(CandidatesOf(files), replies, written, |CandidatesOf(files)|)
    ensures generated == SuiteNames(suites)
  {
    var candidates := CandidatesOf(files);
    suites := [];
    var k := 0;
    while k < |candidates|
      invariant 0 <= k <= |candidates|
      invariant suites == GeneratedUpTo(candidates, replies, written, k)
    {
      suites := GenerateStep(candidates, replies, written, k, suites);
      k := k + 1;
    }
    generated := SuiteNames(suites);
  }

  lemma {:induction false} GeneratedFromCandidates(candidates: seq<IndexedFile>, replies: seq<Result<string, string>>, written: seq<bool>, k: nat)
    requires k <= |candidates| <= |replies| && |candidates| <= |written|
    ensures |GeneratedUpTo(candidates, replies, written, k)| <= k
    ensures forall g :: g in GeneratedUpTo(candidates, replies, written, k) ==>
      exists j :: 0 <= j < k && written[j] && g == (TestFileName(candidates[j].path), GenerateTestsForCode(replies[j]))
  {
    if k > 0 {
      GeneratedFromCandidates(candidates, replies, written, k - 1);
    }
  }

  /**
    At most five suites are generated, each named after a chosen candidate
    with a successful write, and no suite made from a model answer holds a fence.
  */
  lemma GenerateTestsChosen(files: seq<IndexedFile>, replies: seq<Result<string, string>>, written: seq<bool>)
    requires |CandidatesOf(files)| <= |replies| && |CandidatesOf(files)| <= |written|
    ensures var c := CandidatesOf(files); var g := GeneratedUpTo(c, replies, written, |c|);
      && |g| <= MaxCandidates
      && forall x :: x in g ==>
        (exists j :: 0 <= j < |c| && written[j] && x.0 == TestFileName(c[j].path) && (replies[j].Ok? ==> !Contains(x.1, Fence)))
  {
    var c := CandidatesOf(files);
    GeneratedFromCandidates(c, replies, written, |c|);
  }

  // ---------------------------------------------------------------------------
  // Fixing
  // ---------------------------------------------------------------------------

  /** `str(Path(repo_dir) / src_file)`: an absolute file path replaces the directory. */
  function FixPath(repoDir: string, srcFile: string): (r: string)
    ensures StartsWith(srcFile, "/") ==> r == srcFile
    ensures !StartsWith(srcFile, "/") ==> r == repoDir + "/" + srcFile
  {
    if StartsWith(srcFile, "/") then srcFile else repoDir + "/" + srcFile
  }

  /** The path of a dependency or of an interpreter environment: `_apply_fix` refuses to touch it. */
  predicate OutsideRepository(fullPath: string) {
    Contains(fullPath, "site-packages") || Contains(fullPath, ".venv") || Contains(fullPath, "AppData")
  }

  /**
    What `_apply_fix` meets: whether the file exists, its text or the error
    reading it raised, the replies of the primary and of the local model to
    the fix prompt (`None` when that backend failed), the error writing the
    fix raised if any, and the reply of the model asked for a commit message.
  */
  datatype FixEnv = FixEnv(
    fileExists: bool,
    original: Result<string, string>,
    primaryFix: Option<string>,
    localFix: Option<string>,
    writeError: Option<string>,
    explainReply: Option<string>)

  /** The code `generate_fix` returns for the text read (`GenerateFix` in LlmClient). */
  function FixedCode(env: FixEnv): string
    requires env.original.Ok?
  {
    GenerateFix(env.original.value, env.primaryFix, env.localFix)
  }

  /** The commit message `explain_error` returns for the failure (`ExplainError` in LlmClient). */
  function Explanation(failure: Failure, env: FixEnv): string {
    ExplainError(failure.bugType.Name(), failure.errorMessage, env.explainReply)
  }

  /** The entry `_apply_fix` starts from: failed, no commit message, no sha. */
  function InitialEntry(failure: Failure, iteration: int): FixEntry {
    FixEntry(failure.file, failure.bugType, failure.line, failure.errorMessage, "", FixFailed, None, iteration, None)
  }

  /** The file was read and the models produced code that is non-empty and differs from it. */
  predicate ChangedFix(env: FixEnv) {
    env.fileExists && env.original.Ok? && FixedCode(env) != "" && FixedCode(env) != env.original.value
  }

  /** The text of the `UnboundLocalError` CPython 3.11 and later raises when `_apply_fix` returns its entry before assigning it. */
  const UnassignedFixEntry := "cannot access local variable 'fix_entry' where it is not associated with a value"

  /**
    What `_apply_fix` gives for one failure. The refused path is an error: the
    source returns its entry there before creating it, which raises.
  */
  function FixOutcome(repoDir: string, failure: Failure, iteration: int, env: FixEnv): (r: Result<FixEntry, string>)
    ensures r.Err? <==> OutsideRepository(FixPath(repoDir, failure.file))
    ensures r.Err? ==> r.error == UnassignedFixEntry
    ensures r.Ok? ==> r.value.(commitMessage := "", status := FixFailed, error := None) == InitialEntry(failure, iteration)
    ensures r.Ok? ==> (r.value.status == Fixed <==> ChangedFix(env) && env.writeError.None?)
    ensures r.Ok? && r.value.status == Fixed ==> r.value.commitMessage == Explanation(failure, env) && r.value.error.None?
    ensures r.Ok? && r.value.status == FixFailed ==> r.value.commitMessage == ""
    ensures r.Ok? ==> (r.value.error.Some? <==> env.fileExists && (env.original.Err? || (ChangedFix(env) && env.writeError.Some?)))
  {
    if OutsideRepository(FixPath(repoDir, failure.file)) then Err(UnassignedFixEntry)
    else
      var entry := InitialEntry(failure, iteration);
      if !env.fileExists then Ok(entry)
      else
        match env.original
        case Err(exc) => Ok(entry.(error := Some(exc)))
        case Ok(originalCode) =>
          if !ChangedFix(env) then Ok(entry)
          else
            match env.writeError
            case Some(exc) => Ok(entry.(error := Some(exc)))
            case None =>
              Ok(entry.(commitMessage := Explanation(failure, env), status := Fixed))
  }

  /** `_apply_fix`, updating the entry step by step as the source does. */
  method ApplyFix(repoDir: string, failure: Failure, iteration: int, env: FixEnv) returns (outcome: Result<FixEntry, string>)
    ensures outcome == FixOutcome(repoDir, failure, iteration, env)
  {
    var fullPath := FixPath(repoDir, failure.file);
    if OutsideRepository(fullPath) {
      return Err(UnassignedFixEntry);
    }
    var entry := InitialEntry(failure, iteration);
    if !env.fileExists {
      return Ok(entry);
    }
    match env.original {
      case Err(exc) =>
        entry := entry.(error := Some(exc));
      case Ok(originalCode) =>
        var fixedCode := GenerateFix(originalCode, env.primaryFix, env.localFix);
        if fixedCode != "" && fixedCode != originalCode {
          match env.writeError {
            case Some(exc) =>
              entry := entry.(error := Some(exc));
            case None =>
              var commitMsg := ExplainError(failure.bugType.Name(), failure.errorMessage, env.explainReply);
              entry := entry.(commitMessage := commitMsg, status := Fixed);
          }
        }
    }
    outcome := Ok(entry);
  }

  // ---------------------------------------------------------------------------
  // CI polling
  // ---------------------------------------------------------------------------

  /** One answer of the check-runs endpoint: the conclusions of the runs, an auth refusal, another status, or a raised request. */
  datatype PollResponse = Ok200(conclusions: seq<Option<string>>) | AuthRefused | OtherStatus | RequestError

  datatype CiVerdict = CiSuccess | CiFailure | CiPending | CiUnknown | CiAuthError {
    function Name(): string {
      match this
      case CiSuccess => "success"
      case CiFailure => "failure"
      case CiPending => "pending"
      case CiUnknown => "unknown"
      case CiAuthError => "auth_error"
    }
  }

  const MaxPolls := 10

  /** The truthy conclusions of a list of check runs, in order. */
  function Statuses(conclusions: seq<Option<string>>): (r: seq<string>)
    ensures forall s :: s in r <==> s != "" && Some(s) in conclusions
  {
    if conclusions == [] then []
    else
      var rest := Statuses(conclusions[1..]);
      assert conclusions == [conclusions[0]] + conclusions[1..];
      match conclusions[0]
      case Some(c) => if c != "" then [c] + rest else rest
      case None => rest
  }

  /** What one answer decides: `None` to sleep and poll again, or the verdict returned. */
  function PollDecision(resp: PollResponse): (r: Option<CiVerdict>)
    ensures r == Some(CiFailure) <==> resp.Ok200? && "failure" in Statuses(resp.conclusions)
    ensures r == Some(CiSuccess) <==>
      (resp.Ok200? && Statuses(resp.conclusions) != [] && forall s :: s in Statuses(resp.conclusions) ==> s == "success")
    ensures r == Some(CiAuthError) <==> resp.AuthRefused?
    ensures r == Some(CiPending) <==> resp.OtherStatus? || resp.RequestError?
  {
    match resp
    case Ok200(conclusions) =>
      if conclusions == [] then None
      else
        var statuses := Statuses(conclusions);
        if "failure" in statuses then Some(CiFailure)
        else if statuses != [] && forall s :: s in statuses ==> s == "success" then Some(CiSuccess)
        else None
    case AuthRefused => Some(CiAuthError)
    case OtherStatus => Some(CiPending)
    case RequestError => Some(CiPending)
  }

  /** The verdict of polling `polls` more times, given the answers still to come. */
  function PollVerdict(responses: seq<PollResponse>, polls: nat): (r: CiVerdict)
    requires polls <= |responses|
    ensures r != CiUnknown
  {
    if polls == 0 then CiPending
    else
      match PollDecision(responses[0])
      case Some(v) => v
      case None => PollVerdict(responses[1..], polls - 1)
  }

  /**
    `_poll_github_ci` given the parsed owner and repository (`None` when the
    URL is not a GitHub one) and the answers its requests would get.
  */
  method PollGithubCi(ownerRepo: Option<(string, string)>, responses: seq<PollResponse>) returns (verdict: CiVerdict)
    requires MaxPolls <= |responses|
    ensures ownerRepo.None? ==> verdict == CiUnknown
    ensures ownerRepo.Some? ==> verdict == PollVerdict(responses, MaxPolls)
  {
    if ownerRepo.None? {
      return CiUnknown;
    }
    var i := 0;
    while i < MaxPolls
      invariant 0 <= i <= MaxPolls
      invariant PollVerdict(responses[i..], MaxPolls - i) == PollVerdict(responses, MaxPolls)
    {
      assert responses[i..][1..] == responses[i + 1..];
      var decision := PollDecision(responses[i]);
      if decision.Some? {
        return decision.value;
      }
      i := i + 1;
    }
    verdict := CiPending;
  }

  /**
    The verdict is that of the first answer that decides one, within the
    first `polls` answers; when none decides, the poll gives up as "pending".
  */
  lemma {:induction false} PollVerdictFirstDecisive(responses: seq<PollResponse>, polls: nat)
    requires polls <= |responses|
    ensures (forall i :: 0 <= i < polls ==> PollDecision(responses[i]).None?) ==> PollVerdict(responses, polls) == CiPending
    ensures forall j ::
      (0 <= j < polls && PollDecision(responses[j]).Some? && (forall i :: 0 <= i < j ==> PollDecision(responses[i]).None?))
      ==> PollVerdict(responses, polls) == PollDecision(responses[j]).value
  {
    if forall i :: 0 <= i < polls ==> PollDecision(responses[i]).None? {
      PollVerdictNoneDecides(responses, polls);
    }
    forall j | 0 <= j < polls && PollDecision(responses[j]).Some? && (forall i :: 0 <= i < j ==> PollDecision(responses[i]).None?)
      ensures PollVerdict(responses, polls) == PollDecision(responses[j]).value
    {
      PollVerdictDecidedAt(responses, polls, j);
    }
  }

  lemma {:induction false} PollVerdictNoneDecides(responses: seq<PollResponse>, polls: nat)
    requires polls <= |responses| && forall i :: 0 <= i < polls ==> PollDecision(responses[i]).None?
    ensures PollVerdict(responses, polls) == CiPending
  {
    if polls > 0 {
      assert PollDecision(responses[0]).None?;
      forall i | 0 <= i < polls - 1
        ensures PollDecision(responses[1..][i]).None?
      {
        assert responses[1..][i] == responses[i + 1];
      }
      PollVerdictNoneDecides(responses[1..], polls - 1);
    }
  }

  lemma {:induction false} PollVerdictDecidedAt(responses: seq<PollResponse>, polls: nat, j: nat)
    requires j < polls <= |responses| && PollDecision(responses[j]).Some?
    requires forall i :: 0 <= i < j ==> PollDecision(responses[i]).None?
    ensures PollVerdict(responses, polls) == PollDecision(responses[j]).value
  {
    if j > 0 {
      var rest := responses[1..];
      assert PollVerdict(responses, polls) == PollVerdict(rest, polls - 1) by {
        PollVerdictSkip(responses, polls);
      }
      UndecidedShift(responses, j);
      assert rest[j - 1] == responses[j];
      PollVerdictDecidedAt(rest, polls - 1, j - 1);
    }
  }

  /** Answers undecided before `j` stay undecided before `j - 1` once the first is dropped. */
  lemma UndecidedShift(responses: seq<PollResponse>, j: nat)
    requires 0 < j < |responses| && forall i :: 0 <= i < j ==> PollDecision(responses[i]).None?
    ensures forall i :: 0 <= i < j - 1 ==> PollDecision(responses[1..][i]).None?
  {
    forall i | 0 <= i < j - 1
      ensures PollDecision(responses[1..][i]).None?
    {
      assert responses[1..][i] == responses[i + 1];
    }
  }

  /** An undecided first answer leaves the verdict to the later polls. */
  lemma PollVerdictSkip(responses: seq<PollResponse>, polls: nat)
    requires 0 < polls <= |responses| && PollDecision(responses[0]).None?
    ensures PollVerdict(responses, polls) == PollVerdict(responses[1..], polls - 1)
  {
  }

  /** "success" means some answer had conclusions, every one of them "success", and no earlier answer decided. */
  lemma {:induction false} PollSuccessWitness(responses: seq<PollResponse>, polls: nat) returns (j: nat)
    requires polls <= |responses| && PollVerdict(responses, polls) == CiSuccess
    ensures j < polls && responses[j].Ok200? && Statuses(responses[j].conclusions) != []
    ensures forall s :: s in Statuses(responses[j].conclusions) ==> s == "success"
    ensures forall i :: 0 <= i < j ==> PollDecision(responses[i]).None?
  {
    if PollDecision(responses[0]).Some? {
      j := 0;
    } else {
      var j' := PollSuccessWitness(responses[1..], polls - 1);
      j := j' + 1;
      assert responses[1..][j'] == responses[j];
      forall i | 0 <= i < j
        ensures PollDecision(responses[i]).None?
      {
        if i > 0 {
          assert responses[1..][i - 1] == responses[i];
        }
      }
    }
  }

  // ---------------------------------------------------------------------------
  // Nothing to test
  // ---------------------------------------------------------------------------

  const EmptyRunMessage := "No test files found – treated as passing"

  /** `_build_empty_result`: one passing iteration, no fixes, no commits. */
  function BuildEmptyResult(
    runId: string, repoUrl: string, teamName: string, leaderName: string, branchName: string,
    startTime: string, endTime: string, elapsed: nat, status: FinalStatus): (r: Results)
    ensures r.runId == runId && r.summary.startTime == startTime && r.summary.endTime == endTime
    ensures r.summary.repoUrl == repoUrl && r.summary.teamName == teamName
    ensures r.summary.leaderName == leaderName && r.summary.branch == branchName
    ensures r.timeline == [IterationRecord(1, Pass, startTime, 0, EmptyRunMessage)]
    ensures r.fixesTable == [] && r.summary.failuresFound == 0 && r.summary.totalCommits == 0
    ensures r.summary.finalCiStatus == status
    ensures r.score.total == BaseScore + r.score.timeBonus && r.score.commitPenalty == 0
  {
    GenerateResults(runId, repoUrl, teamName, leaderName, branchName, [],
      [IterationRecord(1, Pass, startTime, 0, EmptyRunMessage)],
      startTime, endTime, elapsed, status, 0)
  }
}
