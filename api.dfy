/**
  The HTTP layer (main.py): the branch name a run pushes to, the in-memory
  run registry the endpoints share with the background worker, and the
  `/config` endpoints. The `.env` file and the process environment are
  values passed in and returned; the request framework, the worker thread
  and the random run id are not modelled (the id is an input).
*/
module Api {
  import opened Wrappers
  import opened PyText
  import opened ResultsGenerator
  import opened Records
  import opened GitUtils
  import opened Pipeline

  // ---------------------------------------------------------------------------
  // derive_branch_name
  // ---------------------------------------------------------------------------

  /** The characters `[A-Za-z0-9 ]` a branch name part is built from. */
  predicate IsNameSource(c: char) {
    IsAsciiUpper(c) || IsAsciiLower(c) || IsDigit(c) || c == ' '
  }

  /** `re.sub(r"[^A-Za-z0-9 ]", "", s)`: the letters, digits and spaces of `s`, in order. */
  function KeepNameSource(s: string): (r: string)
    ensures |r| <= |s|
    ensures forall i :: 0 <= i < |r| ==> IsNameSource(r[i])
    decreases |s|
  {
    if s == [] then []
    else
      (if IsNameSource(s[0]) then [s[0]] else []) + KeepNameSource(s[1..])
  }

  /** A text made of letters, digits and spaces only is kept whole. */
  lemma {:induction false} KeepNameSourceClean(s: string)
    requires forall i :: 0 <= i < |s| ==> IsNameSource(s[i])
    ensures KeepNameSource(s) == s
    decreases |s|
  {
    if s != [] {
      KeepNameSourceClean(s[1..]);
      assert s == [s[0]] + s[1..];
    }
  }

  /** Filtering a concatenation filters each half: the filter keeps characters in order. */
  lemma {:induction false} KeepNameSourceAppend(a: string, b: string)
    ensures KeepNameSource(a + b) == KeepNameSource(a) + KeepNameSource(b)
    decreases |a|
  {
    if a != [] {
      assert (a + b)[1..] == a[1..] + b;
      KeepNameSourceAppend(a[1..], b);
    } else {
      assert a + b == b;
    }
  }

  /** A single character is kept exactly when it is a letter, a digit or a space. */
  lemma KeepNameSourceSingle(c: char)
    ensures KeepNameSource([c]) == if IsNameSource(c) then [c] else []
  {
    assert [c][1..] == [];
  }

  /** A text without letters or digits keeps only its spaces. */
  lemma {:induction false} KeepNameSourceSpaces(s: string)
    requires forall i :: 0 <= i < |s| ==> !(IsAsciiUpper(s[i]) || IsAsciiLower(s[i]) || IsDigit(s[i]))
    ensures forall i :: 0 <= i < |KeepNameSource(s)| ==> KeepNameSource(s)[i] == ' '
    decreases |s|
  {
    if s != [] {
      KeepNameSourceSpaces(s[1..]);
    }
  }

  /** One part of the branch name: filtered, trimmed, upper-cased, spaces turned into underscores. */
  function BranchPart(s: string): string {
    ReplaceChar(Upper(Strip(KeepNameSource(s))), ' ', '_')
  }

  /** `derive_branch_name`: `{TEAM}_{LEADER}_AI_Fix`. */
  function DeriveBranchName(teamName: string, leaderName: string): (r: string)
    ensures EndsWith(r, "_AI_Fix")
    ensures StartsWith(r, BranchPart(teamName) + "_")
    ensures |r| == |BranchPart(teamName)| + |BranchPart(leaderName)| + 8
    ensures r[|BranchPart(teamName)| + 1 .. |r| - 7] == BranchPart(leaderName)
  {
    BranchShape(BranchPart(teamName), BranchPart(leaderName));
    BranchPart(teamName) + "_" + BranchPart(leaderName) + "_AI_Fix"
  }

  /** The shape of `{team}_{leader}_AI_Fix` for any two parts. */
  lemma BranchShape(team: string, leader: string)
    ensures var r := team + "_" + leader + "_AI_Fix";
      && EndsWith(r, "_AI_Fix") && StartsWith(r, team + "_") && |r| == |team| + |leader| + 8
      && r[|team| + 1 .. |r| - 7] == leader
  {
    var r := team + "_" + leader + "_AI_Fix";
    assert r[|r| - 7..] == "_AI_Fix";
    assert r[..|team| + 1] == team + "_";
    assert r[|team| + 1 .. |r| - 7] == leader;
  }

  /**
    A part keeps one character per kept, trimmed character: a space becomes an
    underscore (runs of spaces are not collapsed) and every other character is
    upper-cased.
  */
  lemma BranchPartPositions(s: string)
    ensures var t := Strip(KeepNameSource(s));
      && |BranchPart(s)| == |t|
      && forall i :: 0 <= i < |t| ==> BranchPart(s)[i] == if t[i] == ' ' then '_' else UpperChar(t[i])
  {
  }

  /** A part holds only upper-case letters, digits and underscores, and never starts or ends with an underscore. */
  lemma BranchPartChars(s: string)
    ensures forall i :: 0 <= i < |BranchPart(s)| ==> IsAsciiUpper(BranchPart(s)[i]) || IsDigit(BranchPart(s)[i]) || BranchPart(s)[i] == '_'
    ensures BranchPart(s) == [] || (BranchPart(s)[0] != '_' && BranchPart(s)[|BranchPart(s)| - 1] != '_')
  {
    var f := KeepNameSource(s);
    StripKeepsNameSource(f);
    BranchPartPositions(s);
    PartChars(Strip(f), BranchPart(s));
  }

  /** Trimming a run of letters, digits and spaces leaves such a run. */
  lemma StripKeepsNameSource(f: string)
    requires forall i :: 0 <= i < |f| ==> IsNameSource(f[i])
    ensures forall k :: 0 <= k < |Strip(f)| ==> IsNameSource(Strip(f)[k])
  {
    var t := Strip(f);
    var a := StripIsSlice(f);
    assert forall k :: 0 <= k < |t| ==> t[k] == f[a + k];
  }

  /** Turning the spaces of a trimmed run of letters, digits and spaces into underscores and upper-casing the rest. */
  lemma PartChars(t: string, p: string)
    requires forall k :: 0 <= k < |t| ==> IsNameSource(t[k])
    requires t == [] || (!IsSpace(t[0]) && !IsSpace(t[|t| - 1]))
    requires |p| == |t| && forall i :: 0 <= i < |t| ==> p[i] == if t[i] == ' ' then '_' else UpperChar(t[i])
    ensures forall i :: 0 <= i < |p| ==> IsAsciiUpper(p[i]) || IsDigit(p[i]) || p[i] == '_'
    ensures p == [] || (p[0] != '_' && p[|p| - 1] != '_')
  {
  }

  /** A name with no letter or digit in it contributes an empty part. */
  lemma BranchPartEmpty(s: string)
    requires forall i :: 0 <= i < |s| ==> !(IsAsciiUpper(s[i]) || IsAsciiLower(s[i]) || IsDigit(s[i]))
    ensures BranchPart(s) == []
  {
    var f := KeepNameSource(s);
    var a := StripIsSlice(f);
    KeepNameSourceSpaces(s);
  }

  /** With neither name holding a letter or digit, the branch is "__AI_Fix". */
  lemma EmptyBranchName(teamName: string, leaderName: string)
    requires forall i :: 0 <= i < |teamName| ==> !(IsAsciiUpper(teamName[i]) || IsAsciiLower(teamName[i]) || IsDigit(teamName[i]))
    requires forall i :: 0 <= i < |leaderName| ==> !(IsAsciiUpper(leaderName[i]) || IsAsciiLower(leaderName[i]) || IsDigit(leaderName[i]))
    ensures DeriveBranchName(teamName, leaderName) == "__AI_Fix"
  {
    BranchPartEmpty(teamName);
    BranchPartEmpty(leaderName);
    EmptyParts(BranchPart(teamName), BranchPart(leaderName));
  }

  lemma EmptyParts(team: string, leader: string)
    requires team == [] && leader == []
    ensures team + "_" + leader + "_AI_Fix" == "__AI_Fix"
  {
  }

  /** A name already made of upper-case letters and digits is used as it is. */
  lemma BranchPartOfClean(s: string)
    requires forall i :: 0 <= i < |s| ==> IsAsciiUpper(s[i]) || IsDigit(s[i])
    ensures BranchPart(s) == s
  {
    KeepNameSourceClean(s);
    StripUnspaced(s);
    UpperOfClean(s);
    assert ReplaceChar(s, ' ', '_') == s;
  }

  lemma UpperOfClean(s: string)
    requires forall i :: 0 <= i < |s| ==> IsAsciiUpper(s[i]) || IsDigit(s[i])
    ensures Upper(s) == s
  {
    assert forall i :: 0 <= i < |s| ==> Upper(s)[i] == s[i];
  }

  /** For such names the branch is exactly `{team}_{leader}_AI_Fix`. */
  lemma DeriveBranchNameOfClean(teamName: string, leaderName: string)
    requires forall i :: 0 <= i < |teamName| ==> IsAsciiUpper(teamName[i]) || IsDigit(teamName[i])
    requires forall i :: 0 <= i < |leaderName| ==> IsAsciiUpper(leaderName[i]) || IsDigit(leaderName[i])
    ensures DeriveBranchName(teamName, leaderName) == teamName + "_" + leaderName + "_AI_Fix"
  {
    BranchPartOfClean(teamName);
    BranchPartOfClean(leaderName);
  }

  // ---------------------------------------------------------------------------
  // The run registry
  // ---------------------------------------------------------------------------

  datatype RunStatus = Queued | Running | Completed | RunFailed {
    function Name(): string {
      match this
      case Queued => "queued"
      case Running => "running"
      case Completed => "completed"
      case RunFailed => "failed"
    }
  }

  /** The live progress block of a run. */
  datatype LiveState = LiveState(phase: string, message: string, iterations: seq<IterationRecord>,
                                 files: seq<IndexedFile>, terminalOutput: string)

  const QueuedLive := LiveState("queued", "Queued – waiting for worker thread", [], [], "")

  datatype RunRecord = RunRecord(
    status: RunStatus,
    result: Option<Results>,
    error: Option<string>,
    startedAt: string,
    branchName: string,
    repoUrl: string,
    teamName: string,
    leaderName: string,
    live: LiveState)

  /** What the status of a record says about its result and error. */
  predicate Consistent(r: RunRecord) {
    && (r.status == Queued ==> r.result.None? && r.error.None?)
    && (r.status == Completed ==> r.result.Some?)
    && (r.status == RunFailed ==> r.error.Some?)
  }

  /** The record `analyze` stores for a new run. */
  function InitialRecord(startedAt: string, repoUrl: string, teamName: string, leaderName: string): (r: RunRecord)
    ensures r.status == Queued && Consistent(r)
    ensures r.branchName == DeriveBranchName(teamName, leaderName)
    ensures r.repoUrl == repoUrl && r.teamName == teamName && r.leaderName == leaderName && r.startedAt == startedAt
    ensures r.live.iterations == [] && r.live.files == [] && r.live.terminalOutput == ""
  {
    RunRecord(Queued, None, None, startedAt, DeriveBranchName(teamName, leaderName), repoUrl, teamName, leaderName, QueuedLive)
  }

  /** How the background worker closes a record: the results when the pipeline returned, the error text when it raised. */
  function Finish(r: RunRecord, outcome: Result<Results, string>): (f: RunRecord)
    ensures Consistent(f)
    ensures outcome.Ok? <==> f.status == Completed
    ensures outcome.Ok? ==> f.result == Some(outcome.value) && f.error == r.error
    ensures outcome.Err? ==> f.status == RunFailed && f.error == Some(outcome.error) && f.result == r.result
    ensures f.(status := r.status, result := r.result, error := r.error) == r
  {
    match outcome
    case Ok(res) => r.(status := Completed, result := Some(res))
    case Err(e) => r.(status := RunFailed, error := Some(e))
  }

  datatype HttpError = HttpError(statusCode: int, detail: string)

  datatype AnalyzeResponse = AnalyzeResponse(runId: string, message: string, branchName: string)

  /** The body `get_results` returns for a known run. */
  datatype RunView = RunView(
    runId: string,
    status: string,
    branchName: string,
    repoUrl: string,
    teamName: string,
    leaderName: string,
    startedAt: string,
    live: LiveState,
    result: Option<Results>,
    error: Option<string>)

  function ViewOf(runId: string, r: RunRecord): RunView {
    RunView(runId, r.status.Name(), r.branchName, r.repoUrl, r.teamName, r.leaderName, r.startedAt, r.live, r.result, r.error)
  }

  /** A client polling a consistent record sees results once it reads "completed" and an error once it reads "failed". */
  lemma ViewOfConsistent(runId: string, r: RunRecord)
    requires Consistent(r)
    ensures var v := ViewOf(runId, r);
      && v.status in {"queued", "running", "completed", "failed"}
      && (v.status == "completed" ==> v.result.Some?)
      && (v.status == "failed" ==> v.error.Some?)
      && (v.status == "queued" ==> v.result.None? && v.error.None?)
  {
    match r.status
    case Queued =>
    case Running =>
    case Completed =>
    case RunFailed =>
  }

  /** The module-level `runs` dictionary, shared by the endpoints and the background workers. */
  class Registry {
    var runs: map<string, RunRecord>

    ghost predicate Valid()
      reads this
    {
      forall id :: id in runs ==> Consistent(runs[id])
    }

    constructor()
      ensures runs == map[] && Valid()
    {
      runs := map[];
    }

    /**
      `analyze`: refuses a URL that does not start with "http" (400) and leaves
      the registry alone; otherwise queues a new record under `runId`.
    */
    method Analyze(runId: string, startedAt: string, repoUrl: string, teamName: string, leaderName: string)
      returns (response: Result<AnalyzeResponse, HttpError>)
      requires Valid()
      modifies this
      ensures Valid()
      ensures !StartsWith(repoUrl, "http") ==> response == Err(HttpError(400, "repo_url must be a valid HTTP/HTTPS GitHub URL")) && runs == old(runs)
      ensures StartsWith(repoUrl, "http") ==>
        && response == Ok(AnalyzeResponse(runId, "Pipeline started", DeriveBranchName(teamName, leaderName)))
        && runs == old(runs)[runId := InitialRecord(startedAt, repoUrl, teamName, leaderName)]
    {
      if !StartsWith(repoUrl, "http") {
        return Err(HttpError(400, "repo_url must be a valid HTTP/HTTPS GitHub URL"));
      }
      var record := InitialRecord(startedAt, repoUrl, teamName, leaderName);
      runs := runs[runId := record];
      response := Ok(AnalyzeResponse(runId, "Pipeline started", record.branchName));
    }

    /**
      `_background_run`: marks the run running, runs the pipeline, and stores
      its results as completed or its error as failed.
    */
    method BackgroundRun(runId: string, repoUrl: string, teamName: string, leaderName: string, branchName: string,
                         startTime: string, env: PipelineEnv)
      requires Valid() && runId in runs && WellFormedIterations(env.iterations)
      modifies this
      ensures Valid()
      ensures runs == old(runs)[runId := Finish(old(runs)[runId].(status := Running),
                                                 RunOutcome(runId, repoUrl, teamName, leaderName, branchName, startTime, env))]
    {
      runs := runs[runId := runs[runId].(status := Running)];
      var outcome := RunPipeline(runId, repoUrl, teamName, leaderName, branchName, startTime, env);
      match outcome {
        case Ok(result) =>
          runs := runs[runId := runs[runId].(status := Completed, result := Some(result))];
        case Err(message) =>
          runs := runs[runId := runs[runId].(status := RunFailed, error := Some(message))];
      }
    }

    /** `get_results`: 404 for an unknown run, otherwise the run's record as it stands. */
    method GetResults(runId: string) returns (response: Result<RunView, HttpError>)
      ensures response.Err? <==> runId !in runs
      ensures response.Err? ==> response.error == HttpError(404, "Run not found")
      ensures response.Ok? ==> response.value == ViewOf(runId, runs[runId])
    {
      if runId !in runs {
        return Err(HttpError(404, "Run not found"));
      }
      var run := runs[runId];
      response := Ok(RunView(runId, run.status.Name(), run.branchName, run.repoUrl, run.teamName, run.leaderName,
                             run.startedAt, run.live, run.result, run.error));
    }
  }

  // ---------------------------------------------------------------------------
  // /config
  // ---------------------------------------------------------------------------

  /** The body of `POST /config`; a missing field is `None`. */
  datatype ConfigUpdate = ConfigUpdate(githubPat: Option<string>, nvidiaApiKey: Option<string>)

  /** A field counts as given when it is present and non-empty (Python truthiness). */
  predicate Given(v: Option<string>) {
    v.Some? && v.value != ""
  }

  /** The `updates` dictionary in insertion order: the PAT first, then the API key, each only when given. */
  function Updates(conf: ConfigUpdate): seq<(string, string)> {
    (if Given(conf.githubPat) then [("GITHUB_PAT", conf.githubPat.value)] else [])
    + (if Given(conf.nvidiaApiKey) then [("NVIDIA_API_KEY", conf.nvidiaApiKey.value)] else [])
  }

  /** The value stored under `key` in an insertion-ordered dictionary. */
  function Lookup(updates: seq<(string, string)>, key: string): Option<string>
    decreases |updates|
  {
    if updates == [] then None
    else if updates[0].0 == key then Some(updates[0].1)
    else Lookup(updates[1..], key)
  }

  /** The update dictionary holds exactly the given fields, under their environment names. */
  lemma UpdatesLookup(conf: ConfigUpdate, key: string)
    ensures Lookup(Updates(conf), key).Some? ==> Lookup(Updates(conf), key).value != ""
    ensures key == "GITHUB_PAT" ==> Lookup(Updates(conf), key) == if Given(conf.githubPat) then conf.githubPat else None
    ensures key == "NVIDIA_API_KEY" ==> Lookup(Updates(conf), key) == if Given(conf.nvidiaApiKey) then conf.nvidiaApiKey else None
    ensures key != "GITHUB_PAT" && key != "NVIDIA_API_KEY" ==> Lookup(Updates(conf), key) == None
  {
    var u := Updates(conf);
    assert "GITHUB_PAT" != "NVIDIA_API_KEY" by {
      assert "GITHUB_PAT"[0] != "NVIDIA_API_KEY"[0];
    }
    var tail: seq<(string, string)> := if Given(conf.nvidiaApiKey) then [("NVIDIA_API_KEY", conf.nvidiaApiKey.value)] else [];
    assert Lookup(tail, key) == if Given(conf.nvidiaApiKey) && key == "NVIDIA_API_KEY" then conf.nvidiaApiKey else None by {
      if tail != [] {
        assert tail[1..] == [];
      }
    }
    if Given(conf.githubPat) {
      assert u[1..] == tail;
    }
  }

  /** The key of an assignment line: the text before its first "=", trimmed; `None` for a line without "=". */
  function LineKey(line: string): Option<string> {
    if Contains(line, "=") then Some(Strip(Split(line, "=")[0])) else None
  }

  /** What the existing-lines loop rewrites a line to: the key it assigns and that key's new value, when the key is being updated. */
  function Rewrite(line: string, updates: seq<(string, string)>): (r: Option<(string, string)>)
    ensures r.Some? ==> LineKey(line) == Some(r.value.0) && Lookup(updates, r.value.0) == Some(r.value.1)
    ensures r.None? ==> LineKey(line).None? || Lookup(updates, LineKey(line).value).None?
  {
    match LineKey(line)
    case Some(key) =>
      (match Lookup(updates, key)
       case Some(value) => Some((key, value))
       case None => None)
    case None => None
  }

  function Rewrites(lines: seq<string>, updates: seq<(string, string)>): (r: seq<Option<(string, string)>>)
    ensures |r| == |lines| && forall i :: 0 <= i < |lines| ==> r[i] == Rewrite(lines[i], updates)
  {
    seq(|lines|, i requires 0 <= i < |lines| => Rewrite(lines[i], updates))
  }

  /** The new lines built from the first `k` existing lines, given what each line is rewritten to. */
  function MergedUpTo(lines: seq<string>, rewrites: seq<Option<(string, string)>>, k: nat): (r: seq<string>)
    requires k <= |lines| == |rewrites|
    ensures |r| == k
  {
    if k == 0 then []
    else
      MergedUpTo(lines, rewrites, k - 1)
        + match rewrites[k - 1] case Some((key, value)) => [key + "=" + value] case None => [lines[k - 1]]
  }

  /** The `seen` set after the first `k` existing lines. */
  function SeenUpTo(rewrites: seq<Option<(string, string)>>, k: nat): set<string>
    requires k <= |rewrites|
  {
    if k == 0 then {}
    else SeenUpTo(rewrites, k - 1) + if rewrites[k - 1].Some? then {rewrites[k - 1].value.0} else {}
  }

  /** The lines appended for the first `k` updates whose key no existing line assigned. */
  function AppendedUpTo(updates: seq<(string, string)>, seen: set<string>, k: nat): seq<string>
    requires k <= |updates|
  {
    if k == 0 then []
    else
      AppendedUpTo(updates, seen, k - 1)
        + if updates[k - 1].0 in seen then [] else [updates[k - 1].0 + "=" + updates[k - 1].1]
  }

  /** `new_lines` at the end of both loops. */
  function NewLines(lines: seq<string>, updates: seq<(string, string)>): (r: seq<string>)
    ensures |lines| <= |r|
  {
    var rw := Rewrites(lines, updates);
    MergedUpTo(lines, rw, |lines|) + AppendedUpTo(updates, SeenUpTo(rw, |lines|), |updates|)
  }

  /** The lines of the existing `.env` file (`None` when there is none). */
  function EnvLines(existing: Option<string>): seq<string> {
    match existing
    case Some(text) => SplitLines(text)
    case None => []
  }

  /** The text `update_config` writes back to `.env`: the new lines joined by line breaks, with a final line break. */
  function EnvText(existing: Option<string>, conf: ConfigUpdate): (r: string)
    ensures |r| > 0 && r[|r| - 1] == '\n'
  {
    Join("\n", NewLines(EnvLines(existing), Updates(conf))) + "\n"
  }

  /** The process environment after the first `k` updates. */
  function EnvironUpTo(environ: map<string, string>, updates: seq<(string, string)>, k: nat): map<string, string>
    requires k <= |updates|
  {
    if k == 0 then environ else EnvironUpTo(environ, updates, k - 1)[updates[k - 1].0 := updates[k - 1].1]
  }

  function EnvironAfter(environ: map<string, string>, conf: ConfigUpdate): map<string, string> {
    EnvironUpTo(environ, Updates(conf), |Updates(conf)|)
  }

  /** The existing lines keep their places: a rewritten line becomes `key=value`, any other line is kept. */
  lemma {:induction false} MergedUpToLines(lines: seq<string>, rewrites: seq<Option<(string, string)>>, k: nat)
    requires k <= |lines| == |rewrites|
    ensures |MergedUpTo(lines, rewrites, k)| == k
    ensures forall i :: 0 <= i < k && rewrites[i].None? ==> MergedUpTo(lines, rewrites, k)[i] == lines[i]
    ensures forall i :: 0 <= i < k && rewrites[i].Some? ==>
      MergedUpTo(lines, rewrites, k)[i] == rewrites[i].value.0 + "=" + rewrites[i].value.1
  {
    if k > 0 {
      MergedUpToLines(lines, rewrites, k - 1);
    }
  }

  /** A key is seen exactly when one of the lines was rewritten under it. */
  lemma {:induction false} SeenUpToWitness(rewrites: seq<Option<(string, string)>>, k: nat, key: string)
    returns (i: nat)
    requires k <= |rewrites| && key in SeenUpTo(rewrites, k)
    ensures i < k && rewrites[i].Some? && rewrites[i].value.0 == key
  {
    if key in SeenUpTo(rewrites, k - 1) {
      i := SeenUpToWitness(rewrites, k - 1, key);
    } else {
      i := k - 1;
    }
  }

  lemma {:induction false} SeenUpToComplete(rewrites: seq<Option<(string, string)>>, k: nat, i: nat)
    requires i < k <= |rewrites| && rewrites[i].Some?
    ensures rewrites[i].value.0 in SeenUpTo(rewrites, k)
  {
    if i < k - 1 {
      SeenUpToComplete(rewrites, k - 1, i);
    }
  }

  /** An appended line is `key=value` for an update whose key was not seen, and every such update is appended. */
  lemma {:induction false} AppendedUpToMembers(updates: seq<(string, string)>, seen: set<string>, k: nat, line: string)
    requires k <= |updates|
    ensures line in AppendedUpTo(updates, seen, k) <==>
      exists j :: 0 <= j < k && updates[j].0 !in seen && line == updates[j].0 + "=" + updates[j].1
  {
    if k > 0 {
      AppendedUpToMembers(updates, seen, k - 1, line);
    }
  }

  /** Where each given value sits in the dictionary. */
  lemma UpdatesIndex(conf: ConfigUpdate, key: string) returns (j: nat)
    requires Lookup(Updates(conf), key).Some?
    ensures j < |Updates(conf)| && Updates(conf)[j] == (key, Lookup(Updates(conf), key).value)
  {
    UpdatesLookup(conf, key);
    j := if key == "GITHUB_PAT" then 0 else |Updates(conf)| - 1;
  }

  /**
    Every given value ends up in the file: the line that assigned its key is
    rewritten to `key=value`, or, when no line did, `key=value` is appended.
  */
  lemma GivenValueWritten(existing: Option<string>, conf: ConfigUpdate, key: string)
    requires Lookup(Updates(conf), key).Some?
    ensures key + "=" + Lookup(Updates(conf), key).value in NewLines(EnvLines(existing), Updates(conf))
  {
    var lines := EnvLines(existing);
    var u := Updates(conf);
    var rw := Rewrites(lines, u);
    var value := Lookup(u, key).value;
    MergedUpToLines(lines, rw, |lines|);
    if key in SeenUpTo(rw, |lines|) {
      var i := SeenUpToWitness(rw, |lines|, key);
      assert rw[i].value.1 == value;
      assert NewLines(lines, u)[i] == key + "=" + value;
    } else {
      var j := UpdatesIndex(conf, key);
      AppendedUpToMembers(u, SeenUpTo(rw, |lines|), |u|, key + "=" + value);
    }
  }

  /** A line without "=", or whose key is not being updated, is written back unchanged at its place. */
  lemma OtherLinesKept(existing: Option<string>, conf: ConfigUpdate, i: nat)
    requires i < |EnvLines(existing)|
    requires var line := EnvLines(existing)[i]; LineKey(line).None? || Lookup(Updates(conf), LineKey(line).value).None?
    ensures NewLines(EnvLines(existing), Updates(conf))[i] == EnvLines(existing)[i]
  {
    var lines := EnvLines(existing);
    var rw := Rewrites(lines, Updates(conf));
    MergedUpToLines(lines, rw, |lines|);
    assert rw[i].None?;
  }

  /** An update key has no "=" in it. */
  lemma UpdateKeyPlain(conf: ConfigUpdate, j: nat)
    requires j < |Updates(conf)|
    ensures '=' !in Updates(conf)[j].0
  {
  }

  /** No key the file already assigns is appended a second time. */
  lemma NoDuplicateAppend(existing: Option<string>, conf: ConfigUpdate, i: nat, line: string)
    requires i < |EnvLines(existing)| && Rewrite(EnvLines(existing)[i], Updates(conf)).Some?
    requires line in NewLines(EnvLines(existing), Updates(conf))[|EnvLines(existing)|..]
    ensures !StartsWith(line, Rewrite(EnvLines(existing)[i], Updates(conf)).value.0 + "=")
  {
    var lines := EnvLines(existing);
    var u := Updates(conf);
    var rw := Rewrites(lines, u);
    var key := rw[i].value.0;
    var seen := SeenUpTo(rw, |lines|);
    MergedUpToLines(lines, rw, |lines|);
    assert NewLines(lines, u)[|lines|..] == AppendedUpTo(u, seen, |u|);
    SeenUpToComplete(rw, |lines|, i);
    AppendedUpToMembers(u, seen, |u|, line);
    var j :| 0 <= j < |u| && u[j].0 !in seen && line == u[j].0 + "=" + u[j].1;
    var jkey := u[j].0;
    var keyIndex := UpdatesIndex(conf, key);
    UpdateKeyPlain(conf, j);
    UpdateKeyPlain(conf, keyIndex);
    if StartsWith(line, key + "=") {
      PlainKeyPrefix(key, jkey, u[j].1, line);
    }
  }

  /** Two keys without "=" that both start a line followed by "=" are the same key. */
  lemma PlainKeyPrefix(key: string, other: string, value: string, line: string)
    requires '=' !in key && '=' !in other
    requires StartsWith(line, key + "=") && line == other + "=" + value
    ensures key == other
  {
    assert line[|key|] == '=' && line[|other|] == '=';
    assert forall i :: 0 <= i < |key| ==> line[i] == key[i];
    assert forall i :: 0 <= i < |other| ==> line[i] == other[i];
    assert |key| == |other|;
    assert key == line[..|key|] == other;
  }

  /** The given values, and only those, replace entries of the process environment. */
  lemma EnvironAfterValues(environ: map<string, string>, conf: ConfigUpdate, key: string)
    ensures Lookup(Updates(conf), key).Some? ==> key in EnvironAfter(environ, conf) && EnvironAfter(environ, conf)[key] == Lookup(Updates(conf), key).value
    ensures Lookup(Updates(conf), key).None? ==> (key in EnvironAfter(environ, conf) <==> key in environ)
    ensures Lookup(Updates(conf), key).None? && key in environ ==> EnvironAfter(environ, conf)[key] == environ[key]
  {
    UpdatesLookup(conf, key);
    var u := Updates(conf);
    assert "GITHUB_PAT" != "NVIDIA_API_KEY" by {
      assert "GITHUB_PAT"[0] != "NVIDIA_API_KEY"[0];
    }
    if |u| >= 1 {
      assert EnvironUpTo(environ, u, 1) == environ[u[0].0 := u[0].1];
    }
    if |u| == 2 {
      assert EnvironUpTo(environ, u, 2) == EnvironUpTo(environ, u, 1)[u[1].0 := u[1].1];
    }
  }

  /** One pass of the existing-lines loop. */
  method MergeStep(lines: seq<string>, updates: seq<(string, string)>, k: nat, newLines: seq<string>, seen: set<string>)
    returns (newLines': seq<string>, seen': set<string>)
    requires k < |lines|
    requires newLines == MergedUpTo(lines, Rewrites(lines, updates), k) && seen == SeenUpTo(Rewrites(lines, updates), k)
    ensures newLines' == MergedUpTo(lines, Rewrites(lines, updates), k + 1) && seen' == SeenUpTo(Rewrites(lines, updates), k + 1)
  {
    var line := lines[k];
    if Contains(line, "=") {
      var key := Strip(Split(line, "=")[0]);
      var value := Lookup(updates, key);
      if value.Some? {
        return newLines + [key + "=" + value.value], seen + {key};
      }
    }
    return newLines + [line], seen;
  }

  /** One pass of the append loop. */
  method AppendStep(updates: seq<(string, string)>, seen: set<string>, k: nat, newLines: seq<string>, base: seq<string>)
    returns (newLines': seq<string>)
    requires k < |updates| && newLines == base + AppendedUpTo(updates, seen, k)
    ensures newLines' == base + AppendedUpTo(updates, seen, k + 1)
  {
    var (key, value) := updates[k];
    if key !in seen {
      newLines' := newLines + [key + "=" + value];
    } else {
      newLines' := newLines;
    }
  }

  /**
    `update_config`, given the current `.env` text (`None` when the file does
    not exist) and the process environment: the text written to `.env`, the
    new environment and the reply.
  */
  method UpdateConfig(existing: Option<string>, conf: ConfigUpdate, environ: map<string, string>)
    returns (text: string, environ': map<string, string>, message: string)
    ensures text == EnvText(existing, conf)
    ensures environ' == EnvironAfter(environ, conf)
    ensures message == "Configuration updated successfully"
  {
    var lines: seq<string> := [];
    if existing.Some? {
      lines := SplitLines(existing.value);
    }
    var updates := CollectUpdates(conf);
    var newLines, seen := MergeExisting(lines, updates);
    newLines := AppendMissing(updates, seen, newLines);
    text := Join("\n", newLines) + "\n";
    environ' := ReloadEnviron(environ, updates);
    message := "Configuration updated successfully";
  }

  /** The `updates` dictionary of `update_config`. */
  method CollectUpdates(conf: ConfigUpdate) returns (updates: seq<(string, string)>)
    ensures updates == Updates(conf)
  {
    updates := [];
    if conf.githubPat.Some? && conf.githubPat.value != "" {
      updates := updates + [("GITHUB_PAT", conf.githubPat.value)];
    }
    if conf.nvidiaApiKey.Some? && conf.nvidiaApiKey.value != "" {
      updates := updates + [("NVIDIA_API_KEY", conf.nvidiaApiKey.value)];
    }
  }

  /** The loop over the existing lines: rewrites the updated assignments and records their keys. */
  method MergeExisting(lines: seq<string>, updates: seq<(string, string)>) returns (newLines: seq<string>, seen: set<string>)
    ensures newLines == MergedUpTo(lines, Rewrites(lines, updates), |lines|)
    ensures seen == SeenUpTo(Rewrites(lines, updates), |lines|)
  {
    newLines, seen := [], {};
    var k := 0;
    while k < |lines|
      invariant 0 <= k <= |lines|
      invariant newLines == MergedUpTo(lines, Rewrites(lines, updates), k) && seen == SeenUpTo(Rewrites(lines, updates), k)
    {
      newLines, seen := MergeStep(lines, updates, k, newLines, seen);
      k := k + 1;
    }
  }

  /** The loop appending the updates no existing line assigned. */
  method AppendMissing(updates: seq<(string, string)>, seen: set<string>, base: seq<string>) returns (newLines: seq<string>)
    ensures newLines == base + AppendedUpTo(updates, seen, |updates|)
  {
    newLines := base;
    var j := 0;
    while j < |updates|
      invariant 0 <= j <= |updates|
      invariant newLines == base + AppendedUpTo(updates, seen, j)
    {
      newLines := AppendStep(updates, seen, j, newLines, base);
      j := j + 1;
    }
  }

  /** The loop that puts every update into the process environment. */
  method ReloadEnviron(environ: map<string, string>, updates: seq<(string, string)>) returns (environ': map<string, string>)
    ensures environ' == EnvironUpTo(environ, updates, |updates|)
  {
    environ' := environ;
    var j := 0;
    while j < |updates|
      invariant 0 <= j <= |updates|
      invariant environ' == EnvironUpTo(environ, updates, j)
    {
      environ' := environ'[updates[j].0 := updates[j].1];
      j := j + 1;
    }
  }

  /** The body `GET /config` returns: which secrets are set, never their values, and the model name. */
  datatype ConfigView = ConfigView(githubPatSet: bool, nvidiaApiKeySet: bool, nvidiaModel: Option<string>)

  /** A PAT counts as set when it is non-empty and is not the "your_github…" placeholder in any case. */
  predicate PatUsable(pat: string) {
    pat != "" && !Contains(Lower(pat), "your_github")
  }

  function GetConfig(environ: map<string, string>): ConfigView {
    ConfigView(
      "GITHUB_PAT" in environ && PatUsable(environ["GITHUB_PAT"]),
      "NVIDIA_API_KEY" in environ && environ["NVIDIA_API_KEY"] != "",
      if "NVIDIA_MODEL" in environ then Some(environ["NVIDIA_MODEL"]) else None)
  }

  /** The view masks the secrets: two usable PATs, or two non-empty keys, give the same view. */
  lemma GetConfigMasks(environ: map<string, string>, p1: string, p2: string, k1: string, k2: string)
    requires PatUsable(p1) && PatUsable(p2) && k1 != "" && k2 != ""
    ensures GetConfig(environ["GITHUB_PAT" := p1]["NVIDIA_API_KEY" := k1]) == GetConfig(environ["GITHUB_PAT" := p2]["NVIDIA_API_KEY" := k2])
  {
    assert "GITHUB_PAT" != "NVIDIA_API_KEY" by {
      assert "GITHUB_PAT"[0] != "NVIDIA_API_KEY"[0];
    }
    assert "NVIDIA_MODEL" != "NVIDIA_API_KEY" by {
      assert "NVIDIA_MODEL"[7] != "NVIDIA_API_KEY"[7];
    }
    assert "NVIDIA_MODEL" != "GITHUB_PAT" by {
      assert "NVIDIA_MODEL"[0] != "GITHUB_PAT"[0];
    }
  }

  /**
    After `update_config`, `get_config` reports a given key as set, a given PAT
    as set unless it is a placeholder, leaves what was not given as it was,
    and reports the model name unchanged.
  */
  lemma UpdateThenGetConfig(environ: map<string, string>, conf: ConfigUpdate)
    ensures var v := GetConfig(EnvironAfter(environ, conf));
      && (Given(conf.nvidiaApiKey) ==> v.nvidiaApiKeySet)
      && (!Given(conf.nvidiaApiKey) ==> v.nvidiaApiKeySet == GetConfig(environ).nvidiaApiKeySet)
      && (Given(conf.githubPat) ==> v.githubPatSet == PatUsable(conf.githubPat.value))
      && (!Given(conf.githubPat) ==> v.githubPatSet == GetConfig(environ).githubPatSet)
      && v.nvidiaModel == GetConfig(environ).nvidiaModel
  {
    EnvironAfterValues(environ, conf, "GITHUB_PAT");
    EnvironAfterValues(environ, conf, "NVIDIA_API_KEY");
    EnvironAfterValues(environ, conf, "NVIDIA_MODEL");
    UpdatesLookup(conf, "GITHUB_PAT");
    UpdatesLookup(conf, "NVIDIA_API_KEY");
    UpdatesLookup(conf, "NVIDIA_MODEL");
    assert "NVIDIA_MODEL" != "NVIDIA_API_KEY" by {
      assert "NVIDIA_MODEL"[7] != "NVIDIA_API_KEY"[7];
    }
    assert "NVIDIA_MODEL" != "GITHUB_PAT" by {
      assert "NVIDIA_MODEL"[0] != "GITHUB_PAT"[0];
    }
  }
}
