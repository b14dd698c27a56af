# Self-healing CI backend, modelled in Dafny

This project models the backend of an autonomous CI/CD healing agent. You give
it a GitHub repository, a team name and a leader name. It clones the
repository, finds the test files (or generates suites for the largest source
files), and runs every test. It then parses the runner's output into failures
with a file, a line, a message and a bug category. For each failure it asks a
language model for a fix and writes the file back. It commits and pushes under
an `[AI-AGENT]` tag and goes round again, up to five iterations. At the end it
builds a score and a timeline. A small HTTP layer queues runs, reports them and
updates the `.env` configuration.

The model has one module per source file, plus three shared modules:

- `Wrappers`: `Option` and `Result`. A `Result` error stands for a raised Python exception or an HTTP error.
- `PyText`: the Python `str` operations the code uses, over ASCII: `strip`, `lower`, `split`, `splitlines`, `join`, `replace`, `find`, `in`, `int()`, `str()`.
- `PyPath`: the `pathlib` views `name`, `suffix`, `stem` and `parts`.

The modules for the source files:

- `DockerRunner` (docker_runner.py):
  - bug classification;
  - the traceback, colon-style and fallback failure parsers;
  - rewriting paths under the clone directory;
  - deduplication;
  - the command chosen for a local run;
  - how a process outcome becomes a `TestResult`.
- `Records`: the fix entry and timeline records that pass between the stages.
- `ResultsGenerator` (results_generator.py): the score, the counts, the summary and the `Xm Ys` duration.
- `GitUtils` (git_utils.py): the commit-message tag, the short sha, the clone directory name, the file index and token injection.
- `LlmClient` (llm_client.py): markdown stripping; the fallbacks of `generate_fix`, `explain_error` and `generate_tests_for_code`.
- `Agents` (agents.py):
  - test discovery, over paths relative to the clone directory plus that directory's absolute components, since `rglob` tests the skip directories on absolute paths;
  - candidate scoring and test generation;
  - one fix attempt (`_apply_fix`);
  - the CI poll verdict;
  - the empty result.
- `Pipeline` (agents.py): the heal loop of `run_pipeline` as a state machine over recorded inputs. It covers collection, fixing, commit, sha backfill and the stop rule.
- `Api` (main.py):
  - branch-name derivation;
  - the run registry, as a class whose `runs` map the endpoints update;
  - `get_results`;
  - the `.env` merge of `update_config`;
  - `get_config`.

Each loop of the source, whether a `for` or a `while` loop, becomes a `while`
loop with invariants in the model. Each one is proved equal to a recursive
specification function, and lemmas about that function carry the properties.
Everything the code gets from outside is a parameter:
- process outcomes;
- model replies;
- clone, push and CI responses;
- the directory walk;
- the `.env` text and the environment;
- clocks and run ids.

Behaviours of the code that the model follows as written:
- An empty team or leader name gives an empty part of the branch name. So two all-punctuation names give `"__AI_Fix"`, with no placeholder words.
- A repository with no tests and no generated suite is reported as completed with one PASS timeline entry, not with an empty timeline.
- `_apply_fix` returns `fix_entry` before assigning it when the path points into a library directory. That raises `UnboundLocalError`, and the model returns `Err` with the message CPython 3.11 and later give it. `Pipeline.FixesUpToRefusedAt` shows that the iteration then raises, and `Pipeline.RefusedFixFailsRun` shows that the whole run then fails once the loop reaches that iteration.
- Five failing iterations still end the run with status "completed". Its results then carry the CI status FAILED (agents.py:104, main.py:95).
- A refused commit or push is only logged, and the loop goes on to the next iteration without a commit (agents.py:180-182).

## Model

| member | source | states |
|---|---|---|
| DockerRunner.ClassifyBug | CICD_AA/backend/docker_runner.py:312-328 | The classifier is the first matching rule of the keyword table, over the lower-cased error text and output |
| DockerRunner.FirstRuleSpec | CICD_AA/backend/docker_runner.py:312-328 | A rule table answers LOGIC exactly when no rule matches, and otherwise the category of the first matching rule |
| DockerRunner.ClassifyPriority | CICD_AA/backend/docker_runner.py:314-328 | Categories are tried in the order INDENTATION, SYNTAX, IMPORT, TYPE_ERROR, LINTING; LOGIC exactly when no keyword occurs |
| DockerRunner.ClassifyIgnoresCase | CICD_AA/backend/docker_runner.py:314 | Classification does not depend on the case of its inputs |
| DockerRunner.MessageSearchNone | CICD_AA/backend/docker_runner.py:211-221 | With no error-naming line in the window, the search finds nothing |
| DockerRunner.MessageSearchFirst | CICD_AA/backend/docker_runner.py:211-221 | The search returns the first error-naming line of the window, stripped |
| DockerRunner.TracebackMessageSpec | CICD_AA/backend/docker_runner.py:211-221 | A traceback's message is the first of the next three lines that names an error, or the default message when none does |
| DockerRunner.FindErrorMessage | CICD_AA/backend/docker_runner.py:211-221 | The loop computes exactly the traceback message |
| DockerRunner.RewriteClonePathSpec | CICD_AA/backend/docker_runner.py:223-230 | The recorded path is the components after the first `cloned_repos/<dir>` joined by "/", or the raw path when there are none |
| DockerRunner.RewriteUnderClone | CICD_AA/backend/docker_runner.py:223-230 | Once `cloned_repos` is a path component, the rewrite is the components after it |
| DockerRunner.RewriteIsSuffix | CICD_AA/backend/docker_runner.py:223-230 | A rewritten path is a suffix of the slash-normalised original |
| DockerRunner.RewriteKeepsText | CICD_AA/backend/docker_runner.py:223-230 | Any slash-free text in the rewritten path occurs in the original |
| DockerRunner.RewriteKeepsMarks | CICD_AA/backend/docker_runner.py:223-232 | A rewritten path mentions `site-packages` or `.venv` only if the original did, so the rewrite cannot hide a library path |
| DockerRunner.ColonPathInLine | CICD_AA/backend/docker_runner.py:253-265 | The file part of a colon-style line is text of that line |
| DockerRunner.TracebackEntryNotLibrary | CICD_AA/backend/docker_runner.py:198-242 | A traceback failure never comes from a library path, and carries the rewritten path, the parsed line and the searched message |
| DockerRunner.ColonEntryNotLibrary | CICD_AA/backend/docker_runner.py:246-282 | A colon-style failure never comes from a line naming a library directory, and carries the parsed file part, line and message |
| DockerRunner.KeysOfMembers | CICD_AA/backend/docker_runner.py:299-309 | A key is among the seen keys exactly when some listed failure has it |
| DockerRunner.DedupSelectsFirsts | CICD_AA/backend/docker_runner.py:299-309 | Deduplication keeps exactly the first failure of each key, in order |
| DockerRunner.DedupKeepsFirst | CICD_AA/backend/docker_runner.py:299-309 | The first failure with a given key is kept |
| DockerRunner.DedupDistinctKeys | CICD_AA/backend/docker_runner.py:299-309 | No two kept failures share file, line and the first 100 characters of the message |
| DockerRunner.DedupSubset | CICD_AA/backend/docker_runner.py:299-309 | Every kept failure was found, and nothing is kept only when nothing was found |
| DockerRunner.DedupFailures | CICD_AA/backend/docker_runner.py:299-309 | The loop computes the deduplication |
| DockerRunner.SpecificFromLine | CICD_AA/backend/docker_runner.py:193-284 | Every source-specific failure comes from one output line's traceback or colon-style entry |
| DockerRunner.FallbackFromLine | CICD_AA/backend/docker_runner.py:286-297 | Every fallback failure names the test file, line 0, and a failed-test line as its message |
| DockerRunner.ParseFailuresSpec | CICD_AA/backend/docker_runner.py:181-309 | No two parsed failures share file, line and the first 100 characters of the message; every one is a candidate of the scan, and there are none only when the scan found none |
| DockerRunner.ParseFailuresSpecific | CICD_AA/backend/docker_runner.py:181-309 | When some line has a source-specific shape, every reported failure comes from such a line |
| DockerRunner.ParseFailuresFallback | CICD_AA/backend/docker_runner.py:286-297 | Otherwise every reported failure is a fallback entry |
| DockerRunner.ParseFailuresEmpty | CICD_AA/backend/docker_runner.py:181-309 | Nothing is reported exactly when no line has either shape |
| DockerRunner.ScanLine | CICD_AA/backend/docker_runner.py:196-284 | One pass of the main loop yields exactly that line's entry |
| DockerRunner.ScanStep | CICD_AA/backend/docker_runner.py:193-284 | The main loop's step extends the specific failures by one line |
| DockerRunner.ScanSpecific | CICD_AA/backend/docker_runner.py:193-284 | The main loop collects the specific failures of all lines, and the found flag is set exactly when there is one |
| DockerRunner.FallbackStep | CICD_AA/backend/docker_runner.py:287-297 | The fallback loop's step extends the fallback failures by one line |
| DockerRunner.ScanFallback | CICD_AA/backend/docker_runner.py:286-297 | The fallback loop collects the fallback failures of all lines |
| DockerRunner.ParseFailures | CICD_AA/backend/docker_runner.py:181-309 | `_parse_failures` computes the deduplicated candidate list |
| DockerRunner.ExecuteAndParse | CICD_AA/backend/docker_runner.py:108-178 | A result passes exactly on exit code 0. A failing result has at least one failure. Timeouts and crashes give the fixed one-failure results |
| DockerRunner.LocalInvocation | CICD_AA/backend/docker_runner.py:84-98 | Only `.py` and the four script suffixes run: pytest for Python, bun or npx otherwise, with the test file in the command. Any other suffix gives the unsupported-extension result |
| DockerRunner.RunLocally | CICD_AA/backend/docker_runner.py:84-101 | `_run_locally` refuses unsupported suffixes, and passes exactly when it ran and the process exited 0 |
| ResultsGenerator.Score | CICD_AA/backend/results_generator.py:31-51 | Base 100, a 10-point bonus under five minutes, 2 points per commit over 20, and the total clamped at 0, so 0..110 |
| ResultsGenerator.ScoreAntitone | CICD_AA/backend/results_generator.py:31-51 | More time or more commits never raise the score |
| ResultsGenerator.ScoreNotes | CICD_AA/backend/results_generator.py:41-51 | The breakdown notes name the bonus and the penalty that were applied |
| ResultsGenerator.CountStatus | CICD_AA/backend/results_generator.py:53-54 | A status count is at most the number of fixes |
| ResultsGenerator.CountsPartition | CICD_AA/backend/results_generator.py:53-54 | Fixed and failed counts add up to the number of fix entries |
| ResultsGenerator.FormatDuration | CICD_AA/backend/results_generator.py:93-97 | The `{m}m {s}s` text parses back to minutes and seconds below 60 that add up to the elapsed seconds |
| ResultsGenerator.GenerateResults | CICD_AA/backend/results_generator.py:13-76 | The run id, repository, team, leader, branch and times are copied. Failures found is the number of fix entries, applied and failed are the counts of "fixed" and "failed" entries and add up to it. The elapsed seconds are carried and the duration text is their formatted form. Score, tables, CI status and commit count are carried |
| GitUtils.PrefixMessage | CICD_AA/backend/git_utils.py:89-90 | A commit message always starts with the tag, and is unchanged when it already did |
| GitUtils.PrefixOnce | CICD_AA/backend/git_utils.py:89-90 | Tagging is idempotent |
| GitUtils.ShortSha | CICD_AA/backend/git_utils.py:94 | The short sha is the first seven characters of the commit sha |
| GitUtils.RepoName | CICD_AA/backend/git_utils.py:26 | The repository name has no "/" |
| GitUtils.ClonePathName | CICD_AA/backend/git_utils.py:24-27 | The clone directory starts with `{run_id}_`, and stays one directory level when the run id has no "/" |
| GitUtils.DropGitSuffix | CICD_AA/backend/git_utils.py:26 | Removing ".git" from a dot-free name with the suffix gives the name |
| GitUtils.ClonePathOfRepoUrl | CICD_AA/backend/git_utils.py:24-27 | `https://host/<owner>/<name>`, with or without ".git" or a trailing "/", clones into `{run_id}_{name}` |
| GitUtils.GetAllFiles | CICD_AA/backend/git_utils.py:134-157 | The walk loop computes the index of readable listed files |
| GitUtils.IndexSound | CICD_AA/backend/git_utils.py:142-156 | Every indexed file is a readable walk item with a listed suffix, no skip directory among its absolute components, and its "/"-joined relative path |
| GitUtils.IndexComplete | CICD_AA/backend/git_utils.py:142-156 | Every such readable item is indexed |
| GitUtils.SkippedRootIndexesNothing | CICD_AA/backend/git_utils.py:142-147 | When the clone directory itself lies below a skip directory, the index is empty |
| GitUtils.InjectPat | CICD_AA/backend/git_utils.py:173-177 | The network location becomes `{pat}@{hostname}`, with the hostname parsed from the old one, and every other URL field is kept |
| GitUtils.InjectPatForgetsNetloc | CICD_AA/backend/git_utils.py:175-176 | A network location `{user}@{host}:{port}` gives the same URL as the bare host: earlier credentials and the port are dropped |
| GitUtils.InjectPatKeepsHost | CICD_AA/backend/git_utils.py:175-177 | For a token without "@" and a host without ":" or "[", the new network location holds exactly one "@", right after the token, and parses to the same hostname |
| LlmClient.FencedBlock | CICD_AA/backend/llm_client.py:197-201 | The fenced block is the text between the first fence and the next one, and contains no fence |
| LlmClient.StripMarkdown | CICD_AA/backend/llm_client.py:192-209 | A reply without a fence is just trimmed |
| LlmClient.StripMarkdownFenced | CICD_AA/backend/llm_client.py:197-206 | A fenced reply gives the trimmed block, without a leading language-tag line |
| LlmClient.StripMarkdownNoFence | CICD_AA/backend/llm_client.py:192-209 | Extracted code never contains a fence |
| LlmClient.FallbackCommitMessage | CICD_AA/backend/llm_client.py:143 | The fallback message is `Fix <type> error: ` followed by at most 60 characters of the error |
| LlmClient.ExplainError | CICD_AA/backend/llm_client.py:136-143 | The first line of a non-blank reply, otherwise the fallback message |
| LlmClient.GenerateFix | CICD_AA/backend/llm_client.py:90-133 | The primary backend's extracted code, else the local one's, else the original code |
| LlmClient.GenerateFixNoFence | CICD_AA/backend/llm_client.py:113-129 | Code from either backend never contains a fence |
| LlmClient.GenerateTestsForCode | CICD_AA/backend/llm_client.py:146-155 | The fence-free extracted suite, or a comment naming the failure |
| Agents.PythonStep | CICD_AA/backend/agents.py:238-241 | One step of the Python glob extends the matches by one path |
| Agents.DiscoverPython | CICD_AA/backend/agents.py:238-241 | The loop collects the Python tests of all paths |
| Agents.ScriptStep | CICD_AA/backend/agents.py:245-248 | One step of a script glob extends the matches by one path |
| Agents.DiscoverScripts | CICD_AA/backend/agents.py:245-248 | The loop collects the script tests of one extension |
| Agents.GlobStep | CICD_AA/backend/agents.py:244-248 | One more extension appends its script tests |
| Agents.DiscoverTests | CICD_AA/backend/agents.py:228-250 | `_discover_tests` computes the Python tests followed by the script tests per extension |
| Agents.Discovered | CICD_AA/backend/agents.py:228-250 | The definition: the Python tests in walk order, then the script tests glob by glob. Its members and order are stated by `DiscoveredMembers` and `DiscoveredPythonFirst` |
| Agents.PythonTestsMembers | CICD_AA/backend/agents.py:238-241 | A path is a found Python test exactly when it is listed and is a `test_*.py` or `*_test.py` file with no skip directory among its absolute components |
| Agents.ScriptTestsMembers | CICD_AA/backend/agents.py:245-248 | A path is a found script test exactly when it is listed and is a `.test`/`.spec` file of that extension with no skip directory among its absolute components |
| Agents.ScriptTestsUpToMembers | CICD_AA/backend/agents.py:244-248 | A path is found by the script globs exactly when it matches one of the extensions |
| Agents.DiscoveredMembers | CICD_AA/backend/agents.py:228-250 | A path is discovered exactly when it is a Python test or a script test |
| Agents.PythonTestsAllPython | CICD_AA/backend/agents.py:238-241 | Every Python match is a Python test |
| Agents.ScriptTestsUpToAllScripts | CICD_AA/backend/agents.py:244-248 | No script match is a `.py` file |
| Agents.DiscoveredPythonFirst | CICD_AA/backend/agents.py:237-250 | The discovered list is the Python tests, then the script tests |
| Agents.SkippedRootDiscoversNothing | CICD_AA/backend/agents.py:237-248 | When the clone directory itself lies below a skipped directory, no test is discovered |
| Agents.IsCandidate | CICD_AA/backend/agents.py:264-265 | The definition: a lower-cased source suffix, and no "test", "spec" or "setup" in the lower-cased path. `CandidatesOf` and `ScoredUpToCandidates` state that only such files are scored and chosen |
| Agents.ScoreOf | CICD_AA/backend/agents.py:266-269 | A candidate's score is its length, times 2 when its path contains `src/` or `lib/` and times 1 otherwise |
| Agents.ScoreStep | CICD_AA/backend/agents.py:262-270 | One step of the scoring loop scores one more file |
| Agents.ScoreFiles | CICD_AA/backend/agents.py:262-270 | The loop scores every candidate file, in index order |
| Agents.InsertByScorePermutes | CICD_AA/backend/agents.py:273 | Insertion adds exactly the new element |
| Agents.InsertByScoreSorted | CICD_AA/backend/agents.py:273 | Insertion keeps scores non-increasing |
| Agents.InsertByScoreStable | CICD_AA/backend/agents.py:273 | The inserted entry goes after every entry of equal score |
| Agents.SortByScore | CICD_AA/backend/agents.py:273 | The sort is a permutation with non-increasing scores |
| Agents.SortByScoreStable | CICD_AA/backend/agents.py:273-274 | The sort is stable: the entries of any one score come out in index order, so ties at the five-file cut go to the earlier files |
| Agents.TopScored | CICD_AA/backend/agents.py:274 | The top list is the first five or fewer |
| Agents.ScoredUpToCandidates | CICD_AA/backend/agents.py:262-270 | Every scored entry is an indexed candidate file with its score |
| Agents.CandidatesOf | CICD_AA/backend/agents.py:262-274 | At most five candidates, all indexed source files that are not tests or setup, in non-increasing score order |
| Agents.CandidatesBest | CICD_AA/backend/agents.py:273-274 | No scored file left out beats a chosen one |
| Agents.TestFileName | CICD_AA/backend/agents.py:303-307 | The definition: `test_{stem}.py` for Python, `{stem}.test{suffix}` otherwise. `TestFileNameDiscovered` states that discovery finds it |
| Agents.PythonTestNameDiscovered | CICD_AA/backend/agents.py:304-305 | A generated `test_<stem>.py` is a file discovery finds, when the clone directory lies below no skipped directory |
| Agents.ScriptTestNameDiscovered | CICD_AA/backend/agents.py:306-307 | A generated `<stem>.test<ext>` is a file discovery finds, under the same condition |
| Agents.TestFileNameDiscovered | CICD_AA/backend/agents.py:303-307 | The suite name generated for any source suffix is found by test discovery, when the clone directory lies below no skipped directory, and is run by the local runner |
| Agents.GenerateStep | CICD_AA/backend/agents.py:296-314 | One step of the generation loop handles one more candidate |
| Agents.GenerateTests | CICD_AA/backend/agents.py:253-316 | `_generate_tests` writes suites for the chosen candidates and returns their names |
| Agents.GeneratedFromCandidates | CICD_AA/backend/agents.py:296-316 | At most one suite per candidate; each written suite is named after its candidate and holds that candidate's extracted code or failure comment |
| Agents.GenerateTestsChosen | CICD_AA/backend/agents.py:253-316 | At most five suites, each named after a chosen candidate whose write succeeded; a suite made from a model answer holds no fence |
| Agents.FixPath | CICD_AA/backend/agents.py:333-336 | An absolute source path replaces the repository root; a relative one is joined to it |
| Agents.FixOutcome | CICD_AA/backend/agents.py:323-379 | Library paths raise `UnboundLocalError`. Otherwise the entry copies the failure; it is "fixed" exactly when the code `generate_fix` returned is new and was written; the commit message is `explain_error`'s, only on success; an error exactly when reading or writing failed |
| Agents.ApplyFix | CICD_AA/backend/agents.py:323-379 | `_apply_fix` computes that outcome |
| Agents.Statuses | CICD_AA/backend/agents.py:413 | The statuses are exactly the non-empty conclusions |
| Agents.PollDecision | CICD_AA/backend/agents.py:405-428 | A poll decides failure if any run failed, success if all of at least one conclusion succeeded, auth error on 401/403, and pending on other codes or errors |
| Agents.PollVerdict | CICD_AA/backend/agents.py:404-428 | The poll loop never answers "unknown" |
| Agents.PollGithubCi | CICD_AA/backend/agents.py:386-428 | "unknown" exactly when the URL names no repository, otherwise the verdict of the polls |
| Agents.PollVerdictFirstDecisive | CICD_AA/backend/agents.py:404-428 | The verdict is the first decisive poll's answer, or "pending" when none decides |
| Agents.PollVerdictNoneDecides | CICD_AA/backend/agents.py:404-428 | With no decisive poll the verdict is "pending" |
| Agents.PollVerdictDecidedAt | CICD_AA/backend/agents.py:404-428 | The first decisive poll fixes the verdict |
| Agents.PollSuccessWitness | CICD_AA/backend/agents.py:413-417 | A success verdict comes from a poll whose non-empty statuses were all "success" |
| Agents.BuildEmptyResult | CICD_AA/backend/agents.py:435-457 | An empty run has one PASS iteration, no fixes, no commits, no penalty, and the given CI status |
| Pipeline.CollectStep | CICD_AA/backend/agents.py:115-131 | One completed test adds its failures when it did not pass |
| Pipeline.CollectFailures | CICD_AA/backend/agents.py:115-131 | The loop collects the failures of every failing result |
| Pipeline.FailuresUpToMembers | CICD_AA/backend/agents.py:128-129 | A failure is collected exactly when a non-passing result reported it |
| Pipeline.IterationRecordOf | CICD_AA/backend/agents.py:137-145 | The timeline entry counts the failures and is PASS, with "All tests passed", exactly when there are none; otherwise its message is `<n> failure(s) found` |
| Pipeline.FixedUpToMembers | CICD_AA/backend/agents.py:163-164 | A file is listed as fixed exactly when one of its entries has status "fixed" |
| Pipeline.FixedFilesMembers | CICD_AA/backend/agents.py:163-164 | The same for the whole iteration |
| Pipeline.FixesUpToEntries | CICD_AA/backend/agents.py:154-164 | Every entry of an iteration is its failure's fix outcome: same file, line, message and category, the iteration number, and no sha |
| Pipeline.FixEntryFields | CICD_AA/backend/agents.py:340-349 | A fix entry copies its failure's fields and has no sha |
| Pipeline.FixesUpToErrStays | CICD_AA/backend/agents.py:154-164 | Once a fix attempt raises, the rest of the iteration does not run |
| Pipeline.FixesUpToRefusedAt | CICD_AA/backend/agents.py:335-339 | A failure under a library path makes the iteration raise |
| Pipeline.FixesUpToRefusedWitness | CICD_AA/backend/agents.py:335-339 | An iteration raises only because of such a failure |
| Pipeline.FixStep | CICD_AA/backend/agents.py:155-162 | One fix attempt extends the entries or ends in the error |
| Pipeline.FixedStep | CICD_AA/backend/agents.py:163-164 | One entry extends the fixed-file list |
| Pipeline.FixIteration | CICD_AA/backend/agents.py:154-164 | One pass of the fix loop keeps the entries and fixed files in step |
| Pipeline.FixFailures | CICD_AA/backend/agents.py:154-164 | The fix loop computes every failure's outcome and the files fixed |
| Pipeline.BackfillSha | CICD_AA/backend/agents.py:176-179 | Backfilling keeps the number of entries |
| Pipeline.BackfillShaEntries | CICD_AA/backend/agents.py:176-179 | Entries without a sha get the new one, and the others are unchanged |
| Pipeline.BackfillShas | CICD_AA/backend/agents.py:176-179 | The loop computes the backfill |
| Pipeline.AfterFixes | CICD_AA/backend/agents.py:166-182 | A commit happens exactly when a file was fixed and the push returned a sha; only then is the commit count raised and the sha backfilled |
| Pipeline.CommitBackfillsAll | CICD_AA/backend/agents.py:172-179 | After a commit every entry of the run has a sha, and earlier shas are kept |
| Pipeline.HealStep | CICD_AA/backend/agents.py:106-182 | An iteration stops the loop exactly when it collected no failure, records one entry, and otherwise adds one fix entry per failure and at most one commit; it raises exactly when a fix attempt does |
| Pipeline.Heal | CICD_AA/backend/agents.py:104-193 | A loop that ends normally extends the timeline by at most the iterations left, and changes the status only to PASSED |
| Pipeline.FailingStepKeepsBefore | CICD_AA/backend/agents.py:137-182 | A failing iteration keeps the loop invariant for the next one |
| Pipeline.PassingStepFinishes | CICD_AA/backend/agents.py:147-150 | A passing iteration finishes the loop |
| Pipeline.HealFinishes | CICD_AA/backend/agents.py:106-193 | From any state meeting the invariant, the loop ends in a finished state |
| Pipeline.HealRefusedAt | CICD_AA/backend/agents.py:106-165 | A loop that reaches an iteration holding a library-path failure raises |
| Pipeline.HealStepRefused | CICD_AA/backend/agents.py:155-162 | An iteration holding a library-path failure raises |
| Pipeline.HealLoopFinishes | CICD_AA/backend/agents.py:104-193 | The loop from the start ends with: 1 to 5 entries in order; only the last may pass, and the run passes exactly when it does; all five used when it fails; one fix per failure; at most one commit per failing iteration |
| Pipeline.FinishedPassedIff | CICD_AA/backend/agents.py:147-193 | A run is PASSED exactly when some iteration collected no failure, and that is the last one |
| Pipeline.HealIteration | CICD_AA/backend/agents.py:107-182 | One loop iteration computes the step function |
| Pipeline.HealLoop | CICD_AA/backend/agents.py:104-193 | The loop computes the heal function |
| Pipeline.RunOutcome | CICD_AA/backend/agents.py:42-213 | A failed clone is the run's error. Results carry the run id, the request fields, the branch and the times |
| Pipeline.RefusedFixFailsRun | CICD_AA/backend/agents.py:42-213 | A run whose loop reaches an iteration with a library-path failure fails instead of reporting results |
| Pipeline.SkippedCloneReportsEmpty | CICD_AA/backend/agents.py:79-93 | When the test and suite lists are what discovery and generation compute, a clone below a skipped directory finds no test and no file to write suites for, so the run reports the one-entry PASS result |
| Pipeline.RunOutcomeReportsLoop | CICD_AA/backend/agents.py:42-213 | A completed run with tests reports the finished loop's timeline, fixes, commit count and status. A run without tests reports the one-entry empty result |
| Pipeline.RunPipeline | CICD_AA/backend/agents.py:42-213 | `run_pipeline` computes the run outcome: the clone error, the empty result, the branch error, a raised fix, or the generated results |
| Api.KeepNameSource | CICD_AA/backend/main.py:74 | Filtering keeps only letters, digits and spaces, and never lengthens |
| Api.KeepNameSourceAppend | CICD_AA/backend/main.py:74 | Filtering a concatenation filters each half, so characters are kept in order |
| Api.KeepNameSourceSingle | CICD_AA/backend/main.py:74 | One character is kept exactly when it is a letter, a digit or a space |
| Api.KeepNameSourceClean | CICD_AA/backend/main.py:74 | A name without other characters is kept whole |
| Api.DeriveBranchName | CICD_AA/backend/main.py:67-76 | The branch starts with the team part and "_", ends with `_AI_Fix`, and holds exactly the leader part between them |
| Api.BranchPart | CICD_AA/backend/main.py:74-75 | The definition: filter, strip, upper-case, spaces to "_". `BranchPartPositions` and `BranchPartChars` state its shape |
| Api.BranchPartPositions | CICD_AA/backend/main.py:74-75 | The derived part maps each character of the trimmed filtered name: space to "_", others upper-cased |
| Api.BranchPartChars | CICD_AA/backend/main.py:74-75 | The derived part holds only A-Z, 0-9 and "_", and neither starts nor ends with "_" |
| Api.BranchPartEmpty | CICD_AA/backend/main.py:74-75 | A name with no letter or digit gives an empty part |
| Api.EmptyBranchName | CICD_AA/backend/main.py:67-76 | Two such names give `__AI_Fix` |
| Api.BranchPartOfClean | CICD_AA/backend/main.py:74-75 | An upper-case alphanumeric name is its own part |
| Api.DeriveBranchNameOfClean | CICD_AA/backend/main.py:67-76 | For such names the branch is the names joined with "_" and `_AI_Fix` |
| Api.InitialRecord | CICD_AA/backend/main.py:119-136 | A new run is queued, consistent, carries the request fields and the derived branch, and has empty progress |
| Api.Finish | CICD_AA/backend/main.py:95-101 | A run is completed with its results exactly when the pipeline returned, failed with the error otherwise, and nothing else changes |
| Api.ViewOfConsistent | CICD_AA/backend/main.py:155-167 | A client sees results once the status is "completed", and an error once it is "failed" |
| Api.Registry.constructor | CICD_AA/backend/main.py:42 | The run store starts empty |
| Api.Registry.Analyze | CICD_AA/backend/main.py:107-146 | A non-http URL is refused with 400 and the store is unchanged. Otherwise the new record is queued and the run id and branch are answered |
| Api.Registry.BackgroundRun | CICD_AA/backend/main.py:82-101 | The run's record ends as the finished pipeline outcome, and other runs are unchanged |
| Api.Registry.GetResults | CICD_AA/backend/main.py:149-167 | 404 exactly for an unknown run, otherwise the run's view |
| Api.UpdatesLookup | CICD_AA/backend/main.py:192-194 | Only a non-empty PAT and a non-empty key are updates |
| Api.Rewrite | CICD_AA/backend/main.py:199-204 | A line is rewritten exactly when its key has an update |
| Api.MergedUpToLines | CICD_AA/backend/main.py:196-205 | Lines with an updated key become `KEY=value`, and the others are kept |
| Api.SeenUpToWitness | CICD_AA/backend/main.py:196-205 | A key is marked seen only if some line was rewritten for it |
| Api.SeenUpToComplete | CICD_AA/backend/main.py:196-205 | Every rewritten key is marked seen |
| Api.AppendedUpToMembers | CICD_AA/backend/main.py:207-209 | Exactly the unseen updates are appended as `KEY=value` |
| Api.GivenValueWritten | CICD_AA/backend/main.py:192-209 | Every given value ends up in the new file |
| Api.OtherLinesKept | CICD_AA/backend/main.py:198-205 | Lines that are not updated stay in place |
| Api.NoDuplicateAppend | CICD_AA/backend/main.py:196-209 | A key already present is not appended again |
| Api.EnvironAfterValues | CICD_AA/backend/main.py:214-215 | The environment gets the given values, and the others are unchanged |
| Api.MergeStep | CICD_AA/backend/main.py:198-205 | One line of the merge loop |
| Api.AppendStep | CICD_AA/backend/main.py:207-209 | One update of the append loop |
| Api.CollectUpdates | CICD_AA/backend/main.py:192-194 | The updates, computed |
| Api.MergeExisting | CICD_AA/backend/main.py:196-205 | The merge loop, computed |
| Api.AppendMissing | CICD_AA/backend/main.py:207-209 | The append loop, computed |
| Api.EnvText | CICD_AA/backend/main.py:211 | The text written is the new lines joined by line breaks and ends with a line break |
| Api.ReloadEnviron | CICD_AA/backend/main.py:214-215 | The environment loop, computed |
| Api.UpdateConfig | CICD_AA/backend/main.py:181-217 | `update_config` writes the merged text, updates the environment and answers the success message |
| Api.GetConfig | CICD_AA/backend/main.py:170-178 | The definition: a PAT counts as set unless empty or a placeholder, a key as set unless empty, and the model name is passed on. `GetConfigMasks` and `UpdateThenGetConfig` state what it reveals |
| Api.GetConfigMasks | CICD_AA/backend/main.py:170-178 | The config view does not depend on the secret values, only on whether they are set |
| Api.UpdateThenGetConfig | CICD_AA/backend/main.py:170-217 | After an update a given key reads as set and a given PAT as set unless it is a placeholder. What was not given reads as before, and the model name is unchanged |

## Left out

- Docker and subprocess execution: the process outcome (exit code and output, timeout, exception) is an input of `DockerRunner.ExecuteAndParse`. The choice between Docker and a local run, and Docker's own command line, are not modelled.
- Concurrency: the thread pool of `run_pipeline` and the daemon thread of `analyze` are not modelled. Test results arrive as a sequence in completion order.
- Language-model calls: the replies of both backends, or their failure, are inputs. So are the prompt texts, the project context and the language map used to build them.
- GitHub HTTP and sleeping: the poll responses are inputs. The owner/repo regex of `_poll_github_ci` is replaced by an optional owner/repo pair. The poll's verdict only feeds progress messages, so it does not enter the pipeline state.
- GitPython: clone, branch, commit and push are inputs (the working directory or an error; a short sha or an error). `urlparse` is modelled as its six fields. `hostname` is computed from the network location as `urllib.parse` does it: the text after the last "@", inside brackets or before the port, lower-cased up to a "%" zone.
- File I/O: the directory walk, file reads and writes, the `.env` text and the process environment are values. Symlinks, encodings and path resolution are not modelled.
- Clock and identifiers: timestamps, run ids and elapsed time are inputs. Elapsed time is whole seconds: `total_time_seconds` carries it, and its rounding to one decimal and floating point are left out.
- Strings are ASCII: `lower`, `upper`, `strip`, `isspace` and `splitlines` use the ASCII definitions, with no Unicode case mapping.
- Live progress: the `live` block that `run_pipeline` updates during a run (phase, messages, partial timeline, terminal output) stays at its queued value in the model. The final results and the timeline are modelled.
- The `finally` block that deletes the clone, logging, FastAPI routing, CORS and request validation are not modelled.
- `/health` (main.py:220-222) is not modelled: it returns a constant.
- `Agents.IsCandidate` lower-cases the suffix as `_generate_tests` does. `get_all_files` matches suffixes case-sensitively, so a file with an upper-case suffix never reaches generation.
