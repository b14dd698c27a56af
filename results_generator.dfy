/**
  The final results payload (results_generator.py): the score breakdown, the
  run summary and the duration text. Elapsed time is a whole number of seconds
  and timestamps are plain strings the model does not interpret.
*/
module ResultsGenerator {
  import opened Wrappers
  import opened PyText
  import opened Records

  const BaseScore := 100

  /** Runs shorter than this many seconds (five minutes) earn the time bonus. */
  const BonusLimit := 300

  /** Commits beyond this many are penalised, two points each. */
  const FreeCommits := 20

  datatype ScoreBreakdown = ScoreBreakdown(base: int, timeBonus: int, commitPenalty: int, total: int, notes: seq<string>)

  function Max0(x: int): (r: nat)
    ensures r == x || (r == 0 && x < 0)
  {
    if x < 0 then 0 else x
  }

  /** The score breakdown of a run that took `elapsed` seconds and made `commits` commits. */
  function Score(elapsed: nat, commits: nat): (r: ScoreBreakdown)
    ensures r.base == BaseScore
    ensures r.timeBonus == (if elapsed < BonusLimit then 10 else 0)
    ensures r.commitPenalty == 2 * Max0(commits - FreeCommits)
    ensures r.total == Max0(r.base + r.timeBonus - r.commitPenalty)
    ensures 0 <= r.total <= 110
    ensures |r.notes| == 3 && r.notes[0] == "Base score: 100"
  {
    var bonus := if elapsed < BonusLimit then 10 else 0;
    var penalty := Max0(commits - FreeCommits) * 2;
    ScoreBreakdown(
      BaseScore, bonus, penalty, Max0(BaseScore + bonus - penalty),
      [ "Base score: " + NatToString(BaseScore),
        if bonus != 0 then "Time bonus (+10 if <5 min): +" + NatToString(bonus) else "No time bonus (run > 5 min)",
        if penalty != 0 then "Commit penalty (-2 per commit >20): -" + NatToString(penalty) else "No commit penalty" ])
  }

  /** A longer run or more commits never raise the total. */
  lemma ScoreAntitone(e1: nat, e2: nat, c1: nat, c2: nat)
    requires e1 <= e2 && c1 <= c2
    ensures Score(e2, c2).total <= Score(e1, c1).total
  {
  }

  /** The notes report the bonus and the penalty exactly when they are non-zero. */
  lemma ScoreNotes(elapsed: nat, commits: nat)
    ensures var r := Score(elapsed, commits);
      && (r.timeBonus != 0 <==> r.notes[1] == "Time bonus (+10 if <5 min): +10")
      && (r.commitPenalty == 0 <==> r.notes[2] == "No commit penalty")
  {
    var r := Score(elapsed, commits);
    if r.commitPenalty != 0 {
      assert r.notes[2][0] == 'C';
    }
    if r.timeBonus == 0 {
      assert r.notes[1][0] == 'N';
    }
  }

  /** How many fix entries have status `st`. */
  function CountStatus(fixes: seq<FixEntry>, st: FixStatus): (n: nat)
    ensures n <= |fixes|
  {
    if fixes == [] then 0
    else (if fixes[0].status == st then 1 else 0) + CountStatus(fixes[1..], st)
  }

  /** Every fix entry is either applied or failed, so the two counts add up to the entries found. */
  lemma {:induction false} CountsPartition(fixes: seq<FixEntry>)
    ensures CountStatus(fixes, Fixed) + CountStatus(fixes, FixFailed) == |fixes|
  {
    if fixes != [] {
      CountsPartition(fixes[1..]);
    }
  }

  /** `_format_duration` for whole seconds: `"{m}m {s}s"`, showing whole minutes and the remaining seconds below 60, which add back up to the duration. */
  function FormatDuration(seconds: nat): (r: string)
    ensures DurationParts(r).Some?
    ensures var (m, s) := DurationParts(r).value;
      m * 60 + s == seconds && s < 60
  {
    DurationTextParts(seconds / 60, seconds % 60);
    NatToString(seconds / 60) + "m " + NatToString(seconds % 60) + "s"
  }

  /** The minutes and seconds a duration text shows, when it has the form `"{m}m {s}s"`. */
  function DurationParts(text: string): Option<(nat, nat)> {
    match SplitOnce(text, "m ")
    case None => None
    case Some((before, after)) =>
      if |after| == 0 || after[|after| - 1] != 's' then None
      else
        match (ParseDigits(before), ParseDigits(after[..|after| - 1]))
        case (Some(m), Some(s)) => Some((m, s))
        case _ => None
  }

  /** A digit string followed by `"m "` splits there, at its first `"m "`. */
  lemma SplitAfterDigits(dm: string, rest: string)
    requires forall i :: 0 <= i < |dm| ==> IsDigit(dm[i])
    ensures SplitOnce(dm + "m " + rest, "m ") == Some((dm, rest))
  {
    var text := dm + "m " + rest;
    assert OccursAt(text, "m ", |dm|);
    forall i | 0 <= i < |dm|
      ensures !OccursAt(text, "m ", i)
    {
      assert text[i] == dm[i];
    }
    assert IndexOf(text, "m ") == |dm|;
  }

  /** A text `"{m}m {s}s"` shows the minutes `m` and the seconds `s`. */
  lemma DurationTextParts(m: nat, s: nat)
    ensures DurationParts(NatToString(m) + "m " + NatToString(s) + "s") == Some((m, s))
  {
    var dm := NatToString(m);
    var ds := NatToString(s);
    var text := dm + "m " + ds + "s";
    assert text == dm + "m " + (ds + "s");
    assert SplitOnce(text, "m ") == Some((dm, ds + "s")) by { SplitAfterDigits(dm, ds + "s"); }
    assert (ds + "s")[..|ds|] == ds;
    assert ParseDigits(dm) == Some(m) by { ParseDigitsOfNat(m); }
    assert ParseDigits(ds) == Some(s) by { ParseDigitsOfNat(s); }
  }

  /** The `run_summary` block. */
  datatype RunSummary = RunSummary(
    repoUrl: string,
    teamName: string,
    leaderName: string,
    branch: string,
    failuresFound: nat,
    fixesApplied: nat,
    fixesFailed: nat,
    finalCiStatus: FinalStatus,
    startTime: string,
    endTime: string,
    totalTimeSeconds: nat,
    totalTimeHuman: string,
    totalCommits: nat)

  datatype Results = Results(
    runId: string,
    summary: RunSummary,
    score: ScoreBreakdown,
    fixesTable: seq<FixEntry>,
    timeline: seq<IterationRecord>)

  /** `generate_results`: the payload of a finished run. */
  function GenerateResults(
    runId: string, repoUrl: string, teamName: string, leaderName: string, branchName: string,
    fixes: seq<FixEntry>, timeline: seq<IterationRecord>,
    startTime: string, endTime: string, elapsed: nat,
    finalStatus: FinalStatus, commitCount: nat): (r: Results)
    ensures r.runId == runId
    ensures r.summary.repoUrl == repoUrl && r.summary.teamName == teamName
    ensures r.summary.leaderName == leaderName && r.summary.branch == branchName
    ensures r.summary.startTime == startTime && r.summary.endTime == endTime
    ensures r.summary.failuresFound == |fixes|
    ensures r.summary.fixesApplied == CountStatus(fixes, Fixed)
    ensures r.summary.fixesFailed == CountStatus(fixes, FixFailed)
    ensures r.summary.fixesApplied + r.summary.fixesFailed == r.summary.failuresFound
    ensures r.summary.totalTimeSeconds == elapsed && r.summary.totalTimeHuman == FormatDuration(elapsed)
    ensures r.score == Score(elapsed, commitCount)
    ensures r.fixesTable == fixes && r.timeline == timeline
    ensures r.summary.finalCiStatus == finalStatus && r.summary.totalCommits == commitCount
  {
    CountsPartition(fixes);
    Results(
      runId,
      RunSummary(
        repoUrl, teamName, leaderName, branchName,
        |fixes|, CountStatus(fixes, Fixed), CountStatus(fixes, FixFailed),
        finalStatus, startTime, endTime, elapsed, FormatDuration(elapsed), commitCount),
      Score(elapsed, commitCount),
      fixes,
      timeline)
  }
}
