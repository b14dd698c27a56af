/**
  The heal loop of `run_pipeline` (agents.py) as a state machine. Everything
  the loop meets outside itself is an input: the clone, the discovered and the
  generated test files, the branch creation, and for each iteration the test
  results in completion order, what each fix attempt meets and how the push
  ends. The CI poll only reports progress and is not part of the state.
*/
module Pipeline {
  import opened Wrappers
  import opened PyText
  import opened DockerRunner
  import opened Records
  import opened ResultsGenerator
  import opened Agents
  import PyPath
  import GitUtils

  /**
    What one heal iteration meets: its start time, the results of the test
    runs that completed (a run that raised leaves none), one `FixEnv` per
    collected failure in order, and the short sha `commit_and_push` returns
    or the text it raises.
  */
  datatype IterationEnv = IterationEnv(
    timestamp: string,
    results: seq<TestResult>,
    fixEnvs: seq<FixEnv>,
    push: Result<string, string>)

  /**
    What a whole run meets: the clone's working directory or the error it
    raised, the tests found and the suites generated, the error creating the
    branch raised if any, one `IterationEnv` per possible iteration, and the
    end time and whole seconds elapsed. `discovered` and `generated` stand
    for what `Agents.DiscoverTests` and `Agents.GenerateTests` return on the
    clone (agents.py:79-84); the model takes them as given rather than
    re-running discovery and generation.
  */
  datatype PipelineEnv = PipelineEnv(
    clone: Result<string, string>,
    discovered: seq<string>,
    generated: seq<string>,
    branchError: Option<string>,
    iterations: seq<IterationEnv>,
    endTime: string,
    elapsed: nat)

  // ---------------------------------------------------------------------------
  // One iteration
  // ---------------------------------------------------------------------------

  /** The failures of the first `k` results, collected from the runs that did not pass. */
  function FailuresUpTo(results: seq<TestResult>, k: nat): seq<Failure>
    requires k <= |results|
  {
    if k == 0 then []
    else FailuresUpTo(results, k - 1) + if results[k - 1].passed then [] else results[k - 1].failures
  }

  function CollectedFailures(results: seq<TestResult>): seq<Failure> {
    FailuresUpTo(results, |results|)
  }

  method CollectStep(results: seq<TestResult>, k: nat, failures: seq<Failure>) returns (next: seq<Failure>)
    requires k < |results| && failures == FailuresUpTo(results, k)
    ensures next == FailuresUpTo(results, k + 1)
  {
    next := failures;
    if !results[k].passed {
      next := next + results[k].failures;
    }
  }

  /** The collection loop over the completed runs. */
  method CollectFailures(results: seq<TestResult>) returns (failures: seq<Failure>)
    ensures failures == CollectedFailures(results)
  {
    failures := [];
    var k := 0;
    while k < |results|
      invariant 0 <= k <= |results|
      invariant failures == FailuresUpTo(results, k)
    {
      failures := CollectStep(results, k, failures);
      k := k + 1;
    }
  }

  /** A passed run contributes no failure; a failed one all of its own, in order. */
  lemma {:induction false} FailuresUpToMembers(results: seq<TestResult>, k: nat, f: Failure)
    requires k <= |results|
    ensures f in FailuresUpTo(results, k) <==> exists j :: 0 <= j < k && !results[j].passed && f in results[j].failures
  {
    if k > 0 {
      FailuresUpToMembers(results, k - 1, f);
    }
  }

  function IterationMessage(count: nat): string {
    if count == 0 then "All tests passed" else NatToString(count) + " failure(s) found"
  }

  /** The timeline entry of iteration `it`. */
  function IterationRecordOf(it: int, timestamp: string, failures: seq<Failure>): (r: IterationRecord)
    ensures r.iteration == it && r.timestamp == timestamp && r.failuresCount == |failures|
    ensures r.status == Pass <==> failures == []
    ensures r.message == "All tests passed" <==> failures == []
    ensures failures != [] ==> r.message == NatToString(|failures|) + " failure(s) found"
  {
    assert failures != [] ==> IterationMessage(|failures|)[0] == NatToString(|failures|)[0];
    IterationRecord(it, if failures == [] then Pass else Fail, timestamp, |failures|, IterationMessage(|failures|))
  }

  /** The entries of the first `k` outcomes, or the error of the first outcome that is one. */
  function Sequenced(os: seq<Result<FixEntry, string>>, k: nat): (r: Result<seq<FixEntry>, string>)
    requires k <= |os|
    ensures r.Ok? ==> |r.value| == k
  {
    if k == 0 then Ok([])
    else
      match Sequenced(os, k - 1)
      case Err(e) => Err(e)
      case Ok(entries) =>
        match os[k - 1]
        case Err(e) => Err(e)
        case Ok(entry) => Ok(entries + [entry])
  }

  /** What `_apply_fix` gives for each failure. */
  function FixOutcomes(repoDir: string, failures: seq<Failure>, it: int, envs: seq<FixEnv>): (r: seq<Result<FixEntry, string>>)
    requires |failures| <= |envs|
    ensures |r| == |failures|
  {
    seq(|failures|, i requires 0 <= i < |failures| => FixOutcome(repoDir, failures[i], it, envs[i]))
  }

  lemma FixOutcomesAt(repoDir: string, failures: seq<Failure>, it: int, envs: seq<FixEnv>, i: nat)
    requires i < |failures| <= |envs|
    ensures FixOutcomes(repoDir, failures, it, envs)[i] == FixOutcome(repoDir, failures[i], it, envs[i])
  {
  }

  /** The fix entries for the first `k` failures, or the error the first refused one raises. */
  function FixesUpTo(repoDir: string, failures: seq<Failure>, it: int, envs: seq<FixEnv>, k: nat): (r: Result<seq<FixEntry>, string>)
    requires k <= |failures| <= |envs|
  {
    Sequenced(FixOutcomes(repoDir, failures, it, envs), k)
  }

  /** The files of the first `k` entries whose fix was applied, in order. */
  function FixedUpTo(entries: seq<FixEntry>, k: nat): (r: seq<string>)
    requires k <= |entries|
    ensures |r| <= k
  {
    if k == 0 then []
    else FixedUpTo(entries, k - 1) + if entries[k - 1].status == Fixed then [entries[k - 1].file] else []
  }

  /** The files of the entries whose fix was applied, in order. */
  function FixedFiles(entries: seq<FixEntry>): (r: seq<string>)
    ensures |r| <= |entries|
  {
    FixedUpTo(entries, |entries|)
  }

  /** Lists that agree on their first `k` entries agree on the fixed files among them. */
  lemma {:induction false} FixedUpToAgree(a: seq<FixEntry>, b: seq<FixEntry>, k: nat)
    requires k <= |a| && k <= |b| && a[..k] == b[..k]
    ensures FixedUpTo(a, k) == FixedUpTo(b, k)
  {
    if k > 0 {
      assert a[..k - 1] == a[..k][..k - 1] && b[..k - 1] == b[..k][..k - 1];
      assert a[k - 1] == a[..k][k - 1] && b[k - 1] == b[..k][k - 1];
      FixedUpToAgree(a, b, k - 1);
    }
  }

  /** The fixed files of a prefix are those among the first entries of the longer list. */
  lemma FixedFilesOfPrefix(entries: seq<FixEntry>, longer: seq<FixEntry>)
    requires |entries| <= |longer| && longer[..|entries|] == entries
    ensures FixedFiles(entries) == FixedUpTo(longer, |entries|)
  {
    assert entries[..|entries|] == entries;
    FixedUpToAgree(entries, longer, |entries|);
  }

  lemma {:induction false} FixedUpToMembers(entries: seq<FixEntry>, k: nat, file: string)
    requires k <= |entries|
    ensures file in FixedUpTo(entries, k) <==> exists j :: 0 <= j < k && entries[j].status == Fixed && entries[j].file == file
  {
    if k > 0 {
      FixedUpToMembers(entries, k - 1, file);
    }
  }

  /** `fixed_files` holds exactly the files of the applied fixes. */
  lemma FixedFilesMembers(entries: seq<FixEntry>, file: string)
    ensures file in FixedFiles(entries) <==> exists j :: 0 <= j < |entries| && entries[j].status == Fixed && entries[j].file == file
  {
    FixedUpToMembers(entries, |entries|, file);
  }

  /** Every sequenced entry is the value of the outcome at its position. */
  lemma {:induction false} SequencedEntries(os: seq<Result<FixEntry, string>>, k: nat)
    requires k <= |os| && Sequenced(os, k).Ok?
    ensures forall j :: 0 <= j < k ==> os[j] == Ok(Sequenced(os, k).value[j])
  {
    if k > 0 {
      SequencedEntries(os, k - 1);
    }
  }

  /** Each failure gets one entry, in order, carrying its file, line, error and category and the iteration. */
  lemma FixesUpToEntries(repoDir: string, failures: seq<Failure>, it: int, envs: seq<FixEnv>, k: nat)
    requires k <= |failures| <= |envs|
    requires FixesUpTo(repoDir, failures, it, envs, k).Ok?
    ensures var es := FixesUpTo(repoDir, failures, it, envs, k).value;
      forall j :: 0 <= j < k ==>
        && es[j].file == failures[j].file && es[j].line == failures[j].line
        && es[j].errorMessage == failures[j].errorMessage && es[j].bugType == failures[j].bugType
        && es[j].iteration == it && es[j].sha.None?
        && FixOutcome(repoDir, failures[j], it, envs[j]) == Ok(es[j])
  {
    var os := FixOutcomes(repoDir, failures, it, envs);
    var es := Sequenced(os, k).value;
    SequencedEntries(os, k);
    forall j | 0 <= j < k
      ensures && es[j].file == failures[j].file && es[j].line == failures[j].line
        && es[j].errorMessage == failures[j].errorMessage && es[j].bugType == failures[j].bugType
        && es[j].iteration == it && es[j].sha.None?
        && FixOutcome(repoDir, failures[j], it, envs[j]) == Ok(es[j])
    {
      FixOutcomesAt(repoDir, failures, it, envs, j);
      FixEntryFields(repoDir, failures[j], it, envs[j]);
    }
  }

  /** A fix outcome that is an entry carries the failure's file, line, error and category, the iteration and no sha. */
  lemma FixEntryFields(repoDir: string, failure: Failure, it: int, env: FixEnv)
    requires FixOutcome(repoDir, failure, it, env).Ok?
    ensures var e := FixOutcome(repoDir, failure, it, env).value;
      && e.file == failure.file && e.line == failure.line && e.errorMessage == failure.errorMessage
      && e.bugType == failure.bugType && e.iteration == it && e.sha.None?
  {
    var e := FixOutcome(repoDir, failure, it, env).value;
    assert e.(commitMessage := "", status := FixFailed, error := None) == InitialEntry(failure, it);
  }

  /** Once an outcome is an error, the sequencing stays that error. */
  lemma {:induction false} SequencedErrStays(os: seq<Result<FixEntry, string>>, k: nat, m: nat)
    requires k <= m <= |os| && Sequenced(os, k).Err?
    ensures Sequenced(os, m) == Sequenced(os, k)
    decreases m - k
  {
    if k < m {
      SequencedErrStays(os, k + 1, m);
    }
  }

  /** Once refused, the fixes stay refused with the same error. */
  lemma FixesUpToErrStays(repoDir: string, failures: seq<Failure>, it: int, envs: seq<FixEnv>, k: nat, m: nat)
    requires k <= m <= |failures| <= |envs| && FixesUpTo(repoDir, failures, it, envs, k).Err?
    ensures FixesUpTo(repoDir, failures, it, envs, m) == FixesUpTo(repoDir, failures, it, envs, k)
  {
    SequencedErrStays(FixOutcomes(repoDir, failures, it, envs), k, m);
  }

  /** A refused failure makes the fixes of its iteration fail. */
  lemma FixesUpToRefusedAt(repoDir: string, failures: seq<Failure>, it: int, envs: seq<FixEnv>, k: nat, j: nat)
    requires j < k <= |failures| <= |envs| && OutsideRepository(FixPath(repoDir, failures[j].file))
    ensures FixesUpTo(repoDir, failures, it, envs, k).Err?
  {
    FixOutcomesAt(repoDir, failures, it, envs, j);
    SequencedErrFrom(FixOutcomes(repoDir, failures, it, envs), j, k);
  }

  /** An outcome that is an error makes every sequencing past it an error. */
  lemma SequencedErrFrom(os: seq<Result<FixEntry, string>>, j: nat, k: nat)
    requires j < k <= |os| && os[j].Err?
    ensures Sequenced(os, k).Err?
  {
    assert Sequenced(os, j + 1).Err?;
    SequencedErrStays(os, j + 1, k);
  }

  /** A sequencing that is an error has an outcome that is one. */
  lemma {:induction false} SequencedErrWitness(os: seq<Result<FixEntry, string>>, k: nat) returns (j: nat)
    requires k <= |os| && Sequenced(os, k).Err?
    ensures j < k && os[j].Err?
  {
    if Sequenced(os, k - 1).Err? {
      j := SequencedErrWitness(os, k - 1);
    } else {
      j := k - 1;
    }
  }

  /** The fixes of an iteration fail only for a failure naming a file outside the repository. */
  lemma FixesUpToRefusedWitness(repoDir: string, failures: seq<Failure>, it: int, envs: seq<FixEnv>, k: nat)
    returns (j: nat)
    requires k <= |failures| <= |envs| && FixesUpTo(repoDir, failures, it, envs, k).Err?
    ensures j < k && OutsideRepository(FixPath(repoDir, failures[j].file))
  {
    j := SequencedErrWitness(FixOutcomes(repoDir, failures, it, envs), k);
    FixOutcomesAt(repoDir, failures, it, envs, j);
  }

  method FixStep(repoDir: string, failures: seq<Failure>, it: int, envs: seq<FixEnv>, k: nat, entries: seq<FixEntry>)
    returns (next: Result<seq<FixEntry>, string>)
    requires k < |failures| <= |envs| && FixesUpTo(repoDir, failures, it, envs, k) == Ok(entries)
    ensures next == FixesUpTo(repoDir, failures, it, envs, k + 1)
    ensures next.Ok? ==> |next.value| == k + 1 && next.value[..k] == entries
  {
    var outcome := ApplyFix(repoDir, failures[k], it, envs[k]);
    FixOutcomesAt(repoDir, failures, it, envs, k);
    match outcome {
      case Err(e) => next := Err(e);
      case Ok(entry) => next := Ok(entries + [entry]);
    }
  }

  method FixedStep(entries: seq<FixEntry>, k: nat, fixedFiles: seq<string>) returns (next: seq<string>)
    requires k < |entries| && fixedFiles == FixedUpTo(entries, k)
    ensures next == FixedUpTo(entries, k + 1)
  {
    next := fixedFiles;
    if entries[k].status == Fixed {
      next := next + [entries[k].file];
    }
  }

  /** The fix loop after `k` failures: their entries, and the files whose fix was applied among them. */
  predicate FixedSoFar(repoDir: string, failures: seq<Failure>, it: int, envs: seq<FixEnv>, k: nat,
                       entries: seq<FixEntry>, fixedFiles: seq<string>) {
    && k <= |failures| <= |envs|
    && FixesUpTo(repoDir, failures, it, envs, k) == Ok(entries)
    && fixedFiles == FixedFiles(entries)
  }

  /** Before any failure there is no entry and no fixed file. */
  lemma FixedSoFarStart(repoDir: string, failures: seq<Failure>, it: int, envs: seq<FixEnv>)
    requires |failures| <= |envs|
    ensures FixedSoFar(repoDir, failures, it, envs, 0, [], [])
  {
  }

  /** One failure of the fix loop: its outcome extends the entries and, when applied, the fixed files. */
  method FixIteration(repoDir: string, failures: seq<Failure>, it: int, envs: seq<FixEnv>, k: nat,
                      entries: seq<FixEntry>, fixedFiles: seq<string>)
    returns (next: Result<seq<FixEntry>, string>, nextFixed: seq<string>)
    requires k < |failures| && FixedSoFar(repoDir, failures, it, envs, k, entries, fixedFiles)
    ensures next == FixesUpTo(repoDir, failures, it, envs, k + 1)
    ensures next.Ok? ==> FixedSoFar(repoDir, failures, it, envs, k + 1, next.value, nextFixed)
    ensures next.Err? ==> next == FixesUpTo(repoDir, failures, it, envs, |failures|)
  {
    next := FixStep(repoDir, failures, it, envs, k, entries);
    nextFixed := fixedFiles;
    if next.Err? {
      FixesUpToErrStays(repoDir, failures, it, envs, k + 1, |failures|);
    } else {
      FixedFilesOfPrefix(entries, next.value);
      nextFixed := FixedStep(next.value, k, fixedFiles);
    }
  }

  /** The fix loop of one iteration: the entries, and the files whose fix was applied. */
  method FixFailures(repoDir: string, failures: seq<Failure>, it: int, envs: seq<FixEnv>)
    returns (outcome: Result<seq<FixEntry>, string>, fixedFiles: seq<string>)
    requires |failures| <= |envs|
    ensures outcome == FixesUpTo(repoDir, failures, it, envs, |failures|)
    ensures outcome.Ok? ==> fixedFiles == FixedFiles(outcome.value)
  {
    var entries: seq<FixEntry> := [];
    fixedFiles := [];
    var k := 0;
    FixedSoFarStart(repoDir, failures, it, envs);
    while k < |failures|
      invariant FixedSoFar(repoDir, failures, it, envs, k, entries, fixedFiles)
    {
      var next, nextFixed := FixIteration(repoDir, failures, it, envs, k, entries, fixedFiles);
      if next.Err? {
        return next, fixedFiles;
      }
      entries := next.value;
      fixedFiles := nextFixed;
      k := k + 1;
    }
    outcome := Ok(entries);
  }

  /** Every entry still without a sha gets `sha`, whatever its status. */
  function BackfillSha(fixes: seq<FixEntry>, sha: string): (r: seq<FixEntry>)
    ensures |r| == |fixes|
  {
    seq(|fixes|, i requires 0 <= i < |fixes| => if fixes[i].sha.None? then fixes[i].(sha := Some(sha)) else fixes[i])
  }

  /**
    After the backfill every entry has a sha: the one it had, or the new one;
    nothing else about an entry changes.
  */
  lemma BackfillShaEntries(fixes: seq<FixEntry>, sha: string)
    ensures forall i :: 0 <= i < |fixes| ==>
      && BackfillSha(fixes, sha)[i].sha == (if fixes[i].sha.Some? then fixes[i].sha else Some(sha))
      && BackfillSha(fixes, sha)[i].(sha := None) == fixes[i].(sha := None)
  {
  }

  method BackfillShas(fixes: seq<FixEntry>, sha: string) returns (updated: seq<FixEntry>)
    ensures updated == BackfillSha(fixes, sha)
  {
    updated := [];
    var k := 0;
    while k < |fixes|
      invariant 0 <= k <= |fixes|
      invariant updated == BackfillSha(fixes, sha)[..k]
    {
      var entry := fixes[k];
      if entry.sha.None? {
        entry := entry.(sha := Some(sha));
      }
      updated := updated + [entry];
      k := k + 1;
    }
  }

  // ---------------------------------------------------------------------------
  // The loop
  // ---------------------------------------------------------------------------

  /** The loop's state: the CI timeline, every fix entry so far, the commit count and the final status. */
  datatype HealState = HealState(timeline: seq<IterationRecord>, fixes: seq<FixEntry>, commits: nat, status: FinalStatus)

  /** A commit is made when some fix of the iteration was applied and the push returned a sha. */
  predicate Committed(entries: seq<FixEntry>, env: IterationEnv) {
    FixedFiles(entries) != [] && env.push.Ok?
  }

  /** The state after an iteration's fix entries are recorded and, when there is one, its commit. */
  function AfterFixes(st: HealState, entries: seq<FixEntry>, env: IterationEnv): (r: HealState)
    ensures r.timeline == st.timeline && r.status == st.status
    ensures r.commits == st.commits + if Committed(entries, env) then 1 else 0
    ensures !Committed(entries, env) ==> r.fixes == st.fixes + entries
    ensures Committed(entries, env) ==> r.fixes == BackfillSha(st.fixes + entries, env.push.value)
  {
    if Committed(entries, env) then st.(fixes := BackfillSha(st.fixes + entries, env.push.value), commits := st.commits + 1)
    else st.(fixes := st.fixes + entries)
  }

  /** The environment answers every fix attempt of the first five iterations. */
  predicate WellFormedIterations(iterations: seq<IterationEnv>) {
    |iterations| >= MaxRetries
    && forall i :: 0 <= i < |iterations| ==> |CollectedFailures(iterations[i].results)| <= |iterations[i].fixEnvs|
  }

  /**
    One iteration: the new state and whether the loop stops (all tests
    passed), or the error a refused fix raises.
  */
  function HealStep(repoDir: string, st: HealState, it: int, env: IterationEnv): (step: Result<(HealState, bool), string>)
    requires |CollectedFailures(env.results)| <= |env.fixEnvs|
    ensures var failures := CollectedFailures(env.results);
      && (step.Err? <==> failures != [] && FixesUpTo(repoDir, failures, it, env.fixEnvs, |failures|).Err?)
      && (step.Ok? ==> (step.value.1 <==> failures == []))
      && (step.Ok? ==> step.value.0.timeline == st.timeline + [IterationRecordOf(it, env.timestamp, failures)])
      && (step.Ok? && step.value.1 ==> step.value.0 == st.(timeline := step.value.0.timeline, status := Passed))
      && (step.Ok? && !step.value.1 ==>
            |step.value.0.fixes| == |st.fixes| + |failures| && step.value.0.status == st.status
            && step.value.0.commits <= st.commits + 1)
  {
    var failures := CollectedFailures(env.results);
    var timeline := st.timeline + [IterationRecordOf(it, env.timestamp, failures)];
    if failures == [] then Ok((st.(timeline := timeline, status := Passed), true))
    else
      match FixesUpTo(repoDir, failures, it, env.fixEnvs, |failures|)
      case Err(e) => Err(e)
      case Ok(entries) => Ok((AfterFixes(st.(timeline := timeline), entries, env), false))
  }

  /** The loop from iteration `it` on. */
  function Heal(repoDir: string, st: HealState, it: nat, iterations: seq<IterationEnv>): (r: Result<HealState, string>)
    requires 1 <= it && WellFormedIterations(iterations)
    ensures r.Ok? ==> st.timeline <= r.value.timeline
    ensures r.Ok? && it <= MaxRetries + 1 ==> |r.value.timeline| <= |st.timeline| + MaxRetries + 1 - it
    ensures r.Ok? && r.value.status != st.status ==> r.value.status == Passed
    decreases MaxRetries + 1 - it
  {
    if it > MaxRetries then Ok(st)
    else
      match HealStep(repoDir, st, it, iterations[it - 1])
      case Err(e) => Err(e)
      case Ok((next, done)) => if done then Ok(next) else Heal(repoDir, next, it + 1, iterations)
  }

  /** Some failure of the list points outside the repository, so fixing it raises. */
  predicate RefusedIn(repoDir: string, failures: seq<Failure>) {
    exists j :: 0 <= j < |failures| && OutsideRepository(FixPath(repoDir, failures[j].file))
  }

  /**
    An iteration the loop reaches (every earlier one from `it` on collected
    failures, so none stopped it) that holds a refused failure makes the loop
    raise.
  */
  lemma {:induction false} HealRefusedAt(repoDir: string, st: HealState, it: nat, k: nat, iterations: seq<IterationEnv>)
    requires 1 <= it <= k <= MaxRetries && WellFormedIterations(iterations)
    requires forall i :: it - 1 <= i < k - 1 ==> CollectedFailures(iterations[i].results) != []
    requires RefusedIn(repoDir, CollectedFailures(iterations[k - 1].results))
    ensures Heal(repoDir, st, it, iterations).Err?
    decreases k - it
  {
    var step := HealStep(repoDir, st, it, iterations[it - 1]);
    HealUnfolds(repoDir, st, it, iterations);
    if it == k {
      HealStepRefused(repoDir, st, it, iterations[it - 1]);
    } else if step.Ok? {
      assert CollectedFailures(iterations[it - 1].results) != [];
      HealRefusedAt(repoDir, step.value.0, it + 1, k, iterations);
    }
  }

  /** An iteration holding a refused failure raises. */
  lemma HealStepRefused(repoDir: string, st: HealState, it: int, env: IterationEnv)
    requires |CollectedFailures(env.results)| <= |env.fixEnvs|
    requires RefusedIn(repoDir, CollectedFailures(env.results))
    ensures HealStep(repoDir, st, it, env).Err?
  {
    var failures := CollectedFailures(env.results);
    var j :| 0 <= j < |failures| && OutsideRepository(FixPath(repoDir, failures[j].file));
    FixesUpToRefusedAt(repoDir, failures, it, env.fixEnvs, |failures|, j);
  }

  /** The loop at an iteration up to the fifth: a raise ends it, a failing iteration goes on to the next. */
  lemma HealUnfolds(repoDir: string, st: HealState, it: nat, iterations: seq<IterationEnv>)
    requires 1 <= it <= MaxRetries && WellFormedIterations(iterations)
    ensures var step := HealStep(repoDir, st, it, iterations[it - 1]);
      && (step.Err? ==> Heal(repoDir, st, it, iterations).Err?)
      && (step.Ok? && CollectedFailures(iterations[it - 1].results) != [] ==>
            Heal(repoDir, st, it, iterations) == Heal(repoDir, step.value.0, it + 1, iterations))
  {
  }

  /** The failures counted over a timeline. */
  function SumFailures(timeline: seq<IterationRecord>): nat {
    if timeline == [] then 0 else SumFailures(timeline[..|timeline| - 1]) + timeline[|timeline| - 1].failuresCount
  }

  /** Entry `i` of a timeline belongs to iteration i + 1 and counts exactly the failures that iteration collected. */
  predicate EntryMatches(timeline: seq<IterationRecord>, i: nat, iterations: seq<IterationEnv>)
    requires i < |timeline| && i < |iterations|
  {
    timeline[i].iteration == i + 1
    && timeline[i].failuresCount == |CollectedFailures(iterations[i].results)|
    && (timeline[i].status == Pass <==> timeline[i].failuresCount == 0)
  }

  /** The state before iteration `it`: `it - 1` failing iterations recorded, one fix entry per failure, at most one commit each. */
  predicate Before(st: HealState, it: nat, iterations: seq<IterationEnv>) {
    && |st.timeline| == it - 1 && it - 1 <= |iterations| && st.status == Failed
    && (forall i :: 0 <= i < |st.timeline| ==> EntryMatches(st.timeline, i, iterations) && st.timeline[i].status == Fail)
    && |st.fixes| == SumFailures(st.timeline)
    && st.commits <= |st.timeline|
  }

  /**
    What a finished loop promises: one to five timeline entries numbered 1, 2,
    ... in order, each PASS exactly when its iteration collected no failure;
    only the last may pass, and the run passes exactly when it does; a failed
    run used all five iterations; one fix entry per failure found; at most one
    commit per failing iteration.
  */
  predicate Finished(st: HealState, iterations: seq<IterationEnv>) {
    && 1 <= |st.timeline| <= MaxRetries && |st.timeline| <= |iterations|
    && (forall i :: 0 <= i < |st.timeline| ==> EntryMatches(st.timeline, i, iterations))
    && (forall i :: 0 <= i < |st.timeline| - 1 ==> st.timeline[i].status == Fail)
    && (st.status == Passed <==> st.timeline[|st.timeline| - 1].status == Pass)
    && (st.status == Failed ==> |st.timeline| == MaxRetries)
    && |st.fixes| == SumFailures(st.timeline)
    && st.commits + (if st.status == Passed then 1 else 0) <= |st.timeline|
  }

  lemma SumFailuresAppend(timeline: seq<IterationRecord>, r: IterationRecord)
  {
    assert (timeline + [r])[..|timeline|] == timeline;
  }

  /** Recording one more entry keeps the earlier ones and their matching. */
  lemma RecordKeepsEntries(timeline: seq<IterationRecord>, record: IterationRecord, iterations: seq<IterationEnv>)
    requires |timeline| < |iterations|
    requires forall i :: 0 <= i < |timeline| ==> EntryMatches(timeline, i, iterations)
    requires record.iteration == |timeline| + 1 && record.failuresCount == |CollectedFailures(iterations[|timeline|].results)|
    requires record.status == Pass <==> record.failuresCount == 0
    ensures forall i :: 0 <= i < |timeline| + 1 ==> EntryMatches(timeline + [record], i, iterations)
    ensures SumFailures(timeline + [record]) == SumFailures(timeline) + record.failuresCount
  {
    var t := timeline + [record];
    forall i | 0 <= i < |t|
      ensures EntryMatches(t, i, iterations)
    {
      if i < |timeline| {
        assert t[i] == timeline[i];
        assert EntryMatches(timeline, i, iterations);
      }
    }
    SumFailuresAppend(timeline, record);
  }

  /** Recording a failing iteration with one fix entry per failure and at most one commit leads to the state before the next iteration. */
  lemma BeforeNext(st: HealState, it: nat, record: IterationRecord, next: HealState, iterations: seq<IterationEnv>)
    requires 1 <= it <= MaxRetries && WellFormedIterations(iterations) && Before(st, it, iterations)
    requires record.iteration == it && record.failuresCount == |CollectedFailures(iterations[it - 1].results)|
    requires record.status == Fail && record.failuresCount != 0
    requires next.timeline == st.timeline + [record] && next.status == st.status
    requires |next.fixes| == |st.fixes| + record.failuresCount && next.commits <= st.commits + 1
    ensures Before(next, it + 1, iterations)
  {
    RecordKeepsEntries(st.timeline, record, iterations);
    assert forall i :: 0 <= i < |st.timeline| ==> next.timeline[i] == st.timeline[i];
  }

  /** An iteration that collected failures and whose fixes were not refused leads to the state before the next one. */
  lemma FailingStepKeepsBefore(repoDir: string, st: HealState, it: nat, iterations: seq<IterationEnv>)
    requires 1 <= it <= MaxRetries && WellFormedIterations(iterations) && Before(st, it, iterations)
    requires HealStep(repoDir, st, it, iterations[it - 1]).Ok? && !HealStep(repoDir, st, it, iterations[it - 1]).value.1
    ensures Before(HealStep(repoDir, st, it, iterations[it - 1]).value.0, it + 1, iterations)
  {
    var env := iterations[it - 1];
    BeforeNext(st, it, IterationRecordOf(it, env.timestamp, CollectedFailures(env.results)), HealStep(repoDir, st, it, env).value.0, iterations);
  }

  /** Recording a passing iteration after the failing ones finishes the loop. */
  lemma FinishedAfterPass(st: HealState, it: nat, record: IterationRecord, iterations: seq<IterationEnv>)
    requires 1 <= it <= MaxRetries && WellFormedIterations(iterations) && Before(st, it, iterations)
    requires record.iteration == it && record.failuresCount == |CollectedFailures(iterations[it - 1].results)|
    requires record.status == Pass && record.failuresCount == 0
    ensures Finished(st.(timeline := st.timeline + [record], status := Passed), iterations)
  {
    RecordKeepsEntries(st.timeline, record, iterations);
    var t := st.timeline + [record];
    assert forall i :: 0 <= i < |st.timeline| ==> t[i] == st.timeline[i];
  }

  /** An iteration that collected no failure finishes the loop. */
  lemma PassingStepFinishes(repoDir: string, st: HealState, it: nat, iterations: seq<IterationEnv>)
    requires 1 <= it <= MaxRetries && WellFormedIterations(iterations) && Before(st, it, iterations)
    requires HealStep(repoDir, st, it, iterations[it - 1]).Ok? && HealStep(repoDir, st, it, iterations[it - 1]).value.1
    ensures Finished(HealStep(repoDir, st, it, iterations[it - 1]).value.0, iterations)
  {
    var env := iterations[it - 1];
    FinishedAfterPass(st, it, IterationRecordOf(it, env.timestamp, CollectedFailures(env.results)), iterations);
  }

  lemma {:induction false} HealFinishes(repoDir: string, st: HealState, it: nat, iterations: seq<IterationEnv>)
    requires 1 <= it <= MaxRetries + 1 && WellFormedIterations(iterations) && Before(st, it, iterations)
    requires Heal(repoDir, st, it, iterations).Ok?
    ensures Finished(Heal(repoDir, st, it, iterations).value, iterations)
    decreases MaxRetries + 1 - it
  {
    if it > MaxRetries {
      HealEndFinishes(repoDir, st, it, iterations);
    } else if HealStep(repoDir, st, it, iterations[it - 1]).value.1 {
      HealPassFinishes(repoDir, st, it, iterations);
    } else {
      var next := HealStep(repoDir, st, it, iterations[it - 1]).value.0;
      FailingStepKeepsBefore(repoDir, st, it, iterations);
      HealFinishes(repoDir, next, it + 1, iterations);
      HealGoesOn(repoDir, st, it, iterations);
    }
  }

  /** After the last iteration the loop is finished. */
  lemma HealEndFinishes(repoDir: string, st: HealState, it: nat, iterations: seq<IterationEnv>)
    requires it == MaxRetries + 1 && WellFormedIterations(iterations) && Before(st, it, iterations)
    ensures Heal(repoDir, st, it, iterations) == Ok(st)
    ensures Finished(Heal(repoDir, st, it, iterations).value, iterations)
  {
    AllFailedFinishes(st, iterations);
  }

  /** An iteration that passed ends the loop with every promise of `Finished`. */
  lemma HealPassFinishes(repoDir: string, st: HealState, it: nat, iterations: seq<IterationEnv>)
    requires 1 <= it <= MaxRetries && WellFormedIterations(iterations) && Before(st, it, iterations)
    requires Heal(repoDir, st, it, iterations).Ok? && HealStep(repoDir, st, it, iterations[it - 1]).value.1
    ensures Finished(Heal(repoDir, st, it, iterations).value, iterations)
  {
    HealUnfold(repoDir, st, it, iterations);
    PassingStepFinishes(repoDir, st, it, iterations);
  }

  /** After an iteration that did not pass, the loop's result is that of the rest of the loop. */
  lemma HealGoesOn(repoDir: string, st: HealState, it: nat, iterations: seq<IterationEnv>)
    requires 1 <= it <= MaxRetries && WellFormedIterations(iterations)
    requires Heal(repoDir, st, it, iterations).Ok? && !HealStep(repoDir, st, it, iterations[it - 1]).value.1
    requires Finished(Heal(repoDir, HealStep(repoDir, st, it, iterations[it - 1]).value.0, it + 1, iterations).value, iterations)
    ensures Finished(Heal(repoDir, st, it, iterations).value, iterations)
  {
    HealUnfold(repoDir, st, it, iterations);
  }

  /** One more iteration of the loop: it stops after an iteration that passed and goes on after one that did not. */
  lemma HealUnfold(repoDir: string, st: HealState, it: nat, iterations: seq<IterationEnv>)
    requires 1 <= it <= MaxRetries && WellFormedIterations(iterations) && Heal(repoDir, st, it, iterations).Ok?
    ensures var step := HealStep(repoDir, st, it, iterations[it - 1]);
      && step.Ok?
      && (step.value.1 ==> Heal(repoDir, st, it, iterations) == Ok(step.value.0))
      && (!step.value.1 ==> Heal(repoDir, st, it, iterations) == Heal(repoDir, step.value.0, it + 1, iterations))
  {
  }

  /** After five failing iterations the loop is finished. */
  lemma AllFailedFinishes(st: HealState, iterations: seq<IterationEnv>)
    requires WellFormedIterations(iterations) && Before(st, MaxRetries + 1, iterations)
    ensures Finished(st, iterations)
  {
  }

  /** The loop run from its start keeps every promise of `Finished`. */
  lemma HealLoopFinishes(repoDir: string, iterations: seq<IterationEnv>)
    requires WellFormedIterations(iterations)
    ensures Heal(repoDir, InitialState, 1, iterations).Ok? ==> Finished(Heal(repoDir, InitialState, 1, iterations).value, iterations)
  {
    if Heal(repoDir, InitialState, 1, iterations).Ok? {
      HealFinishes(repoDir, InitialState, 1, iterations);
    }
  }

  /**
    A finished run passed exactly when some iteration collected no failure,
    and that iteration is the last one recorded.
  */
  lemma FinishedPassedIff(st: HealState, iterations: seq<IterationEnv>)
    requires Finished(st, iterations)
    ensures st.status == Passed <==> exists i :: 0 <= i < |st.timeline| && CollectedFailures(iterations[i].results) == []
    ensures st.status == Passed ==> CollectedFailures(iterations[|st.timeline| - 1].results) == []
  {
    assert EntryMatches(st.timeline, |st.timeline| - 1, iterations);
    if exists i :: 0 <= i < |st.timeline| && CollectedFailures(iterations[i].results) == [] {
      var i :| 0 <= i < |st.timeline| && CollectedFailures(iterations[i].results) == [];
      assert EntryMatches(st.timeline, i, iterations);
    }
  }

  const InitialState := HealState([], [], 0, Failed)

  /** `run_pipeline`: the results of a run, or the error that ends it. */
  function RunOutcome(runId: string, repoUrl: string, teamName: string, leaderName: string, branchName: string,
                      startTime: string, env: PipelineEnv): (r: Result<Results, string>)
    requires WellFormedIterations(env.iterations)
    ensures env.clone.Err? ==> r == Err(env.clone.error)
    ensures r.Ok? ==> r.value.runId == runId && r.value.summary.startTime == startTime && r.value.summary.endTime == env.endTime
    ensures r.Ok? ==> r.value.summary.repoUrl == repoUrl && r.value.summary.teamName == teamName
    ensures r.Ok? ==> r.value.summary.leaderName == leaderName && r.value.summary.branch == branchName
  {
    match env.clone
    case Err(e) => Err(e)
    case Ok(workingDir) =>
      var testFiles := if env.discovered != [] then env.discovered else env.generated;
      if testFiles == [] then
        Ok(BuildEmptyResult(runId, repoUrl, teamName, leaderName, branchName, startTime, env.endTime, env.elapsed, Passed))
      else if env.branchError.Some? then Err(env.branchError.value)
      else
        match Heal(workingDir, InitialState, 1, env.iterations)
        case Err(e) => Err(e)
        case Ok(st) =>
          Ok(GenerateResults(runId, repoUrl, teamName, leaderName, branchName, st.fixes, st.timeline,
                             startTime, env.endTime, env.elapsed, st.status, st.commits))
  }

  /** With the test list and the suite list given as discovery and generation compute them. */
  predicate FromDiscovery(env: PipelineEnv, root: seq<string>, paths: seq<string>, tree: seq<GitUtils.TreeItem>,
                          replies: seq<Result<string, string>>, written: seq<bool>)
  {
    var candidates := CandidatesOf(GitUtils.IndexUpTo(root, tree, GitUtils.IndexedExtensions, |tree|));
    && |candidates| <= |replies| && |candidates| <= |written|
    && env.discovered == Discovered(root, paths)
    && env.generated == SuiteNames(GeneratedUpTo(candidates, replies, written, |candidates|))
  }

  /**
    A clone below a skipped directory: discovery finds no test and the index
    no file, so nothing is generated and the run reports the one-entry PASS
    result (agents.py:79-93).
  */
  lemma SkippedCloneReportsEmpty(runId: string, repoUrl: string, teamName: string, leaderName: string, branchName: string,
                                 startTime: string, env: PipelineEnv, root: seq<string>, paths: seq<string>,
                                 tree: seq<GitUtils.TreeItem>, replies: seq<Result<string, string>>, written: seq<bool>)
    requires WellFormedIterations(env.iterations) && env.clone.Ok?
    requires PyPath.AnyIn(root, TestSkipDirs) && FromDiscovery(env, root, paths, tree, replies, written)
    ensures RunOutcome(runId, repoUrl, teamName, leaderName, branchName, startTime, env)
      == Ok(BuildEmptyResult(runId, repoUrl, teamName, leaderName, branchName, startTime, env.endTime, env.elapsed, Passed))
  {
    if env.discovered != [] {
      SkippedRootDiscoversNothing(root, paths, env.discovered[0]);
      assert false;
    }
    assert GitUtils.SkipDirs == TestSkipDirs;
    GitUtils.SkippedRootIndexesNothing(root, tree, GitUtils.IndexedExtensions, |tree|);
  }

  /** After a commit every fix entry of the run has a sha, the earlier ones keeping theirs. */
  lemma CommitBackfillsAll(st: HealState, entries: seq<FixEntry>, env: IterationEnv)
    requires Committed(entries, env)
    ensures var fixes := AfterFixes(st, entries, env).fixes;
      && |fixes| == |st.fixes| + |entries|
      && (forall i :: 0 <= i < |fixes| ==> fixes[i].sha.Some?)
      && (forall i :: 0 <= i < |st.fixes| && st.fixes[i].sha.Some? ==> fixes[i] == st.fixes[i])
  {
    var all := st.fixes + entries;
    BackfillShaEntries(all, env.push.value);
    forall i | 0 <= i < |st.fixes| && st.fixes[i].sha.Some?
      ensures AfterFixes(st, entries, env).fixes[i] == st.fixes[i]
    {
      assert all[i] == st.fixes[i];
    }
  }

  /**
    A run with tests to heal that ends normally reports the finished loop's
    timeline, fix entries, commit count and status; one with no test at all
    reports the single passing iteration of the empty result.
  */
  lemma RunOutcomeReportsLoop(runId: string, repoUrl: string, teamName: string, leaderName: string, branchName: string,
                              startTime: string, env: PipelineEnv)
    requires WellFormedIterations(env.iterations)
    ensures RunOutcome(runId, repoUrl, teamName, leaderName, branchName, startTime, env).Ok? ==>
      var r := RunOutcome(runId, repoUrl, teamName, leaderName, branchName, startTime, env).value;
      && (env.discovered == [] && env.generated == [] ==>
            r.timeline == [IterationRecord(1, Pass, startTime, 0, EmptyRunMessage)] && r.summary.finalCiStatus == Passed)
      && (env.discovered != [] || env.generated != [] ==>
            Finished(HealState(r.timeline, r.fixesTable, r.summary.totalCommits, r.summary.finalCiStatus), env.iterations)
            && r.summary.failuresFound == SumFailures(r.timeline))
  {
    if RunOutcome(runId, repoUrl, teamName, leaderName, branchName, startTime, env).Ok? && (env.discovered != [] || env.generated != []) {
      HealLoopFinishes(env.clone.value, env.iterations);
    }
  }

  /**
    A run whose loop reaches an iteration with a failure in a library path
    fails as a whole: the iteration raises and `run_pipeline` passes the error
    on instead of reporting results.
  */
  lemma RefusedFixFailsRun(runId: string, repoUrl: string, teamName: string, leaderName: string, branchName: string,
                           startTime: string, env: PipelineEnv, k: nat)
    requires WellFormedIterations(env.iterations) && env.clone.Ok? && env.branchError.None?
    requires env.discovered != [] || env.generated != []
    requires 1 <= k <= MaxRetries
    requires forall i :: 0 <= i < k - 1 ==> CollectedFailures(env.iterations[i].results) != []
    requires RefusedIn(env.clone.value, CollectedFailures(env.iterations[k - 1].results))
    ensures RunOutcome(runId, repoUrl, teamName, leaderName, branchName, startTime, env).Err?
  {
    HealRefusedAt(env.clone.value, InitialState, 1, k, env.iterations);
  }

  /** One pass of the loop body of `run_pipeline`. */
  method HealIteration(repoDir: string, st: HealState, it: int, env: IterationEnv) returns (outcome: Result<(HealState, bool), string>)
    requires |CollectedFailures(env.results)| <= |env.fixEnvs|
    ensures outcome == HealStep(repoDir, st, it, env)
  {
    var failures := CollectFailures(env.results);
    var timeline := st.timeline + [IterationRecordOf(it, env.timestamp, failures)];
    if failures == [] {
      return Ok((st.(timeline := timeline, status := Passed), true));
    }
    var fixed, fixedFiles := FixFailures(repoDir, failures, it, env.fixEnvs);
    if fixed.Err? {
      return Err(fixed.error);
    }
    var allFixes := st.fixes + fixed.value;
    var commitCount := st.commits;
    if fixedFiles != [] {
      match env.push {
        case Ok(sha) =>
          commitCount := commitCount + 1;
          allFixes := BackfillShas(allFixes, sha);
        case Err(_) =>
      }
    }
    outcome := Ok((HealState(timeline, allFixes, commitCount, st.status), false));
  }

  /** The heal loop: at most five iterations, stopping at the first that collects no failure. */
  method HealLoop(repoDir: string, iterations: seq<IterationEnv>) returns (outcome: Result<HealState, string>)
    requires WellFormedIterations(iterations)
    ensures outcome == Heal(repoDir, InitialState, 1, iterations)
  {
    var st := InitialState;
    var iteration := 1;
    while iteration <= MaxRetries
      invariant 1 <= iteration <= MaxRetries + 1
      invariant Heal(repoDir, st, iteration, iterations) == Heal(repoDir, InitialState, 1, iterations)
      decreases MaxRetries + 1 - iteration
    {
      var step := HealIteration(repoDir, st, iteration, iterations[iteration - 1]);
      match step {
        case Err(e) =>
          return Err(e);
        case Ok((next, done)) =>
          if done {
            return Ok(next);
          }
          st := next;
      }
      iteration := iteration + 1;
    }
    outcome := Ok(st);
  }

  /**
    `run_pipeline` over a given environment. The environment's test list and
    suite list are meant to be the results of `Agents.DiscoverTests` and
    `Agents.GenerateTests` on the clone; `SkippedCloneReportsEmpty` composes
    them for a clone below a skipped directory.
  */
  method RunPipeline(runId: string, repoUrl: string, teamName: string, leaderName: string, branchName: string,
                     startTime: string, env: PipelineEnv) returns (outcome: Result<Results, string>)
    requires WellFormedIterations(env.iterations)
    ensures outcome == RunOutcome(runId, repoUrl, teamName, leaderName, branchName, startTime, env)
  {
    if env.clone.Err? {
      return Err(env.clone.error);
    }
    var testFiles := env.discovered;
    if testFiles == [] {
      var newTestFiles := env.generated;
      if newTestFiles != [] {
        testFiles := newTestFiles;
      } else {
        return Ok(BuildEmptyResult(runId, repoUrl, teamName, leaderName, branchName, startTime, env.endTime, env.elapsed, Passed));
      }
    }
    if env.branchError.Some? {
      return Err(env.branchError.value);
    }
    var healed := HealLoop(env.clone.value, env.iterations);
    if healed.Err? {
      return Err(healed.error);
    }
    var st := healed.value;
    outcome := Ok(GenerateResults(runId, repoUrl, teamName, leaderName, branchName, st.fixes, st.timeline,
                                  startTime, env.endTime, env.elapsed, st.status, st.commits));
  }
}
