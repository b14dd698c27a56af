/**
  Running one test file and turning the runner's output into failure records
  (docker_runner.py). The process itself is an input: its exit code and output
  streams, a timeout, or an exception raised while starting it.
*/
module DockerRunner {
  import opened Wrappers
  import opened PyText
  import opened PyPath

  /** The six bug categories a failure is classified into. */
  datatype BugType = Indentation | Syntax | Import | TypeError | Linting | Logic {
    /** The category as it is written into failure records and results.json. */
    function Name(): string {
      match this
      case Indentation => "INDENTATION"
      case Syntax => "SYNTAX"
      case Import => "IMPORT"
      case TypeError => "TYPE_ERROR"
      case Linting => "LINTING"
      case Logic => "LOGIC"
    }
  }

  /** One parsed failure: `{ file, line, error_message, bug_type }`. */
  datatype Failure = Failure(file: string, line: int, errorMessage: string, bugType: BugType)

  /** `TestResult`, the outcome of running one test file. */
  datatype TestResult = TestResult(testFile: string, passed: bool, stdout: string, stderr: string, failures: seq<Failure>)

  // ---------------------------------------------------------------------------
  // Classification
  // ---------------------------------------------------------------------------

  /** Some word of `words` occurs in `t`. */
  predicate MentionsAny(t: string, words: seq<string>) {
    |words| > 0 && (Contains(t, words[0]) || MentionsAny(t, words[1..]))
  }

  /** The classifier's keyword groups as a table, highest priority first, each with the category it selects. */
  const Rules: seq<(BugType, seq<string>)> := [
    (Indentation, ["indentationerror", "unexpected indent", "indentation"]),
    (Syntax, ["syntaxerror", "invalid syntax", "syntax"]),
    (Import, ["importerror", "modulenotfounderror", "cannot import"]),
    (TypeError, ["typeerror", "type error", "unsupported operand"]),
    (Linting, ["flake8", "pylint", "pep8", "lint", "unused import"])
  ]

  /** The category of the first rule with a keyword in `t`; `Logic` when none has one. */
  function FirstRule(rules: seq<(BugType, seq<string>)>, t: string): BugType {
    if rules == [] then Logic
    else if MentionsAny(t, rules[0].1) then rules[0].0
    else FirstRule(rules[1..], t)
  }

  lemma MentionsAny3(t: string, a: string, b: string, c: string)
    ensures MentionsAny(t, [a, b, c]) <==> Contains(t, a) || Contains(t, b) || Contains(t, c)
  {
    assert [a, b, c][1..] == [b, c];
    assert [b, c][1..] == [c];
    assert [c][1..] == [];
    assert !MentionsAny(t, []);
    assert MentionsAny(t, [c]) == (Contains(t, c) || MentionsAny(t, []));
    assert MentionsAny(t, [b, c]) == (Contains(t, b) || MentionsAny(t, [c]));
  }

  lemma MentionsAny5(t: string, a: string, b: string, c: string, d: string, e: string)
    ensures MentionsAny(t, [a, b, c, d, e]) <==> Contains(t, a) || Contains(t, b) || Contains(t, c) || Contains(t, d) || Contains(t, e)
  {
    assert [a, b, c, d, e][1..] == [b, c, d, e];
    assert [b, c, d, e][1..] == [c, d, e];
    MentionsAny3(t, c, d, e);
    assert MentionsAny(t, [b, c, d, e]) == (Contains(t, b) || MentionsAny(t, [c, d, e]));
  }

  /** The rule table read top to bottom is the classifier's chain of keyword tests. */
  lemma ClassifyByTable(t: string)
    ensures FirstRule(Rules, t) ==
      if Contains(t, "indentationerror") || Contains(t, "unexpected indent") || Contains(t, "indentation") then Indentation
      else if Contains(t, "syntaxerror") || Contains(t, "invalid syntax") || Contains(t, "syntax") then Syntax
      else if Contains(t, "importerror") || Contains(t, "modulenotfounderror") || Contains(t, "cannot import") then Import
      else if Contains(t, "typeerror") || Contains(t, "type error") || Contains(t, "unsupported operand") then TypeError
      else if Contains(t, "flake8") || Contains(t, "pylint") || Contains(t, "pep8") || Contains(t, "lint") || Contains(t, "unused import") then Linting
      else Logic
  {
    var r := Rules;
    MentionsAny3(t, "indentationerror", "unexpected indent", "indentation");
    MentionsAny3(t, "syntaxerror", "invalid syntax", "syntax");
    MentionsAny3(t, "importerror", "modulenotfounderror", "cannot import");
    MentionsAny3(t, "typeerror", "type error", "unsupported operand");
    MentionsAny5(t, "flake8", "pylint", "pep8", "lint", "unused import");
    assert FirstRule(r[5..], t) == Logic;
    assert FirstRule(r[4..], t) == if MentionsAny(t, r[4].1) then Linting else FirstRule(r[5..], t);
    assert FirstRule(r[3..], t) == if MentionsAny(t, r[3].1) then TypeError else FirstRule(r[4..], t);
    assert FirstRule(r[2..], t) == if MentionsAny(t, r[2].1) then Import else FirstRule(r[3..], t);
    assert FirstRule(r[1..], t) == if MentionsAny(t, r[1].1) then Syntax else FirstRule(r[2..], t);
    assert FirstRule(r, t) == if MentionsAny(t, r[0].1) then Indentation else FirstRule(r[1..], t);
  }

  /**
    `_classify_bug(text, full_output)`: an ordered keyword test on the
    lower-cased text, which reads the rule table `Rules` top to bottom.
  */
  function ClassifyBug(text: string, fullOutput: string): (b: BugType)
    ensures b == FirstRule(Rules, Lower(text + " " + fullOutput))
  {
    var t := Lower(text + " " + fullOutput);
    ClassifyByTable(t);
    if Contains(t, "indentationerror") || Contains(t, "unexpected indent") || Contains(t, "indentation") then Indentation
    else if Contains(t, "syntaxerror") || Contains(t, "invalid syntax") || Contains(t, "syntax") then Syntax
    else if Contains(t, "importerror") || Contains(t, "modulenotfounderror") || Contains(t, "cannot import") then Import
    else if Contains(t, "typeerror") || Contains(t, "type error") || Contains(t, "unsupported operand") then TypeError
    else if Contains(t, "flake8") || Contains(t, "pylint") || Contains(t, "pep8") || Contains(t, "lint") || Contains(t, "unused import") then Linting
    else Logic
  }

  /** `FirstRule` picks the first matching rule, and `Logic` exactly when no rule (none tagged `Logic`) matches. */
  lemma {:induction false} FirstRuleSpec(rules: seq<(BugType, seq<string>)>, t: string)
    requires forall k :: 0 <= k < |rules| ==> rules[k].0 != Logic
    ensures FirstRule(rules, t) == Logic <==> forall k :: 0 <= k < |rules| ==> !MentionsAny(t, rules[k].1)
    ensures forall k :: 0 <= k < |rules| && MentionsAny(t, rules[k].1) && (forall j :: 0 <= j < k ==> !MentionsAny(t, rules[j].1)) ==> FirstRule(rules, t) == rules[k].0
    decreases |rules|
  {
    if rules != [] {
      FirstRuleSpec(rules[1..], t);
      assert forall k :: 1 <= k < |rules| ==> rules[1..][k - 1] == rules[k];
    }
  }

  /**
    The classifier's answer is the category of the first rule, in the order
    INDENTATION, SYNTAX, IMPORT, TYPE_ERROR, LINTING, whose keyword occurs in the
    lower-cased text, and LOGIC exactly when no keyword occurs.
  */
  lemma ClassifyPriority(text: string, fullOutput: string)
    ensures var t := Lower(text + " " + fullOutput);
      && (ClassifyBug(text, fullOutput) == Logic <==> forall k :: 0 <= k < |Rules| ==> !MentionsAny(t, Rules[k].1))
      && forall k :: 0 <= k < |Rules| && MentionsAny(t, Rules[k].1) && (forall j :: 0 <= j < k ==> !MentionsAny(t, Rules[j].1)) ==> ClassifyBug(text, fullOutput) == Rules[k].0
  {
    FirstRuleSpec(Rules, Lower(text + " " + fullOutput));
  }

  /** Lower-casing distributes over concatenation. */
  lemma LowerConcat(x: string, y: string)
    ensures Lower(x + y) == Lower(x) + Lower(y)
  {
  }

  lemma LowerOfJoined(text: string, fullOutput: string)
    ensures Lower(Lower(text) + " " + Lower(fullOutput)) == Lower(text + " " + fullOutput)
  {
    LowerConcat(text, " " + fullOutput);
    LowerConcat(" ", fullOutput);
    LowerConcat(Lower(text), " " + Lower(fullOutput));
    LowerConcat(" ", Lower(fullOutput));
    LowerIdempotent(text);
    LowerIdempotent(fullOutput);
    assert Lower(" ") == " ";
    assert text + " " + fullOutput == text + (" " + fullOutput);
    assert Lower(text) + " " + Lower(fullOutput) == Lower(text) + (" " + Lower(fullOutput));
  }

  /** The classification does not depend on letter case. */
  lemma ClassifyIgnoresCase(text: string, fullOutput: string)
    ensures ClassifyBug(Lower(text), Lower(fullOutput)) == ClassifyBug(text, fullOutput)
  {
    LowerOfJoined(text, fullOutput);
  }

  // ---------------------------------------------------------------------------
  // Line recognisers
  // ---------------------------------------------------------------------------

  /** The message recorded when no nearby line names an error type. */
  const DefaultMessage := "Error detected in this file (check traceback)"

  /** The directory that holds every clone. */
  const CloneRoot := "cloned_repos"

  /** The line names one of the error types that mark a traceback's message line. */
  predicate NamesError(line: string) {
    exists j :: 0 <= j < |ErrorTypes| && Contains(line, ErrorTypes[j])
  }

  /** The error types, in the order the runner tests them. */
  const ErrorTypes: seq<string> := ["SyntaxError", "IndentationError", "NameError", "TypeError",
                                    "AttributeError", "ImportError", "FileNotFoundError", "ModuleNotFoundError"]

  lemma NamesErrorNonEmpty(line: string)
    requires NamesError(line)
    ensures |line| > 0
  {
    var j :| 0 <= j < |ErrorTypes| && Contains(line, ErrorTypes[j]);
    assert |ErrorTypes[j]| > 0;
  }

  /** A `File "path.py", line N` traceback line (already stripped). */
  predicate IsTracebackLine(line: string) {
    Contains(line, "File \"") && Contains(line, ".py\", line ")
  }

  /** A `path.py:N: message` line (already stripped). */
  predicate IsColonLine(line: string) {
    Contains(line, ".py:") && Contains(line, ": ")
  }

  /** A pytest summary line naming a failed test. */
  predicate IsFallbackLine(line: string) {
    Contains(line, "::ERROR") || (Contains(line, "FAILED") && Contains(line, "::"))
  }

  /** The line number of a traceback line: the first word after `", line `, without trailing commas. */
  function TracebackLineNumber(line: string): Option<int> {
    var pieces := Split(line, "\", line ");
    if |pieces| < 2 then None
    else match FirstWord(pieces[1])
      case None => None
      case Some(w) => ParseInt(RStripChar(w, ','))
  }

  /** The first of the lines `i + j`, `j` from `from` to 3, that names an error type, stripped; "" when none does. */
  function MessageSearch(lines: seq<string>, i: nat, from: nat): string
    requires 1 <= from <= 4
    decreases 4 - from
  {
    if from == 4 then ""
    else if i + from < |lines| && NamesError(Strip(lines[i + from])) then Strip(lines[i + from])
    else MessageSearch(lines, i, from + 1)
  }

  /** The message of the traceback line at `i`. */
  function TracebackMessage(lines: seq<string>, i: nat): string {
    var m := MessageSearch(lines, i, 1);
    if m == "" then DefaultMessage else m
  }

  /** When none of the searched lines names an error type, the search finds nothing. */
  lemma {:induction false} MessageSearchNone(lines: seq<string>, i: nat, from: nat)
    requires 1 <= from <= 4
    requires forall k :: i + from <= k < i + 4 && k < |lines| ==> !NamesError(Strip(lines[k]))
    ensures MessageSearch(lines, i, from) == ""
    decreases 4 - from
  {
    if from < 4 {
      MessageSearchNone(lines, i, from + 1);
    }
  }

  /** The search finds the first searched line that names an error type. */
  lemma {:induction false} MessageSearchFirst(lines: seq<string>, i: nat, from: nat, k: nat)
    requires 1 <= from <= 4
    requires i + from <= k < i + 4 && k < |lines| && NamesError(Strip(lines[k]))
    requires forall m :: i + from <= m < k ==> !NamesError(Strip(lines[m]))
    ensures MessageSearch(lines, i, from) == Strip(lines[k])
    decreases 4 - from
  {
    if i + from < k {
      MessageSearchSkip(lines, i, from);
      MessageSearchFirst(lines, i, from + 1, k);
    } else {
      MessageSearchHit(lines, i, k - i);
    }
  }

  lemma MessageSearchHit(lines: seq<string>, i: nat, from: nat)
    requires 1 <= from < 4 && i + from < |lines| && NamesError(Strip(lines[i + from]))
    ensures MessageSearch(lines, i, from) == Strip(lines[i + from])
  {
  }

  lemma MessageSearchSkip(lines: seq<string>, i: nat, from: nat)
    requires 1 <= from < 4 && !(i + from < |lines| && NamesError(Strip(lines[i + from])))
    ensures MessageSearch(lines, i, from) == MessageSearch(lines, i, from + 1)
  {
  }

  /**
    The message of a traceback entry is the first of the next three lines that
    names a known error type, stripped; when none of them does, it is the default text.
  */
  lemma TracebackMessageSpec(lines: seq<string>, i: nat)
    ensures (forall k :: i < k < i + 4 && k < |lines| ==> !NamesError(Strip(lines[k])))
      ==> TracebackMessage(lines, i) == DefaultMessage
    ensures forall k ::
      (i < k < i + 4 && k < |lines| && NamesError(Strip(lines[k]))
       && (forall m :: i < m < k ==> !NamesError(Strip(lines[m]))))
      ==> TracebackMessage(lines, i) == Strip(lines[k])
  {
    if forall k :: i < k < i + 4 && k < |lines| ==> !NamesError(Strip(lines[k])) {
      MessageSearchNone(lines, i, 1);
    }
    forall k | i < k < i + 4 && k < |lines| && NamesError(Strip(lines[k]))
      && (forall m :: i < m < k ==> !NamesError(Strip(lines[m])))
      ensures TracebackMessage(lines, i) == Strip(lines[k])
    {
      MessageSearchFirst(lines, i, 1, k);
      NamesErrorNonEmpty(Strip(lines[k]));
    }
  }

  // ---------------------------------------------------------------------------
  // Clone paths
  // ---------------------------------------------------------------------------

  /** The path recorded for a file the runner names: relative to the clone when it lies under `cloned_repos/<clone-dir>/`. */
  function RewriteClonePath(raw: string): string {
    var norm := ReplaceChar(raw, '\\', '/');
    if Contains(norm, CloneRoot) then AfterClone(Split(norm, "/"), raw) else raw
  }

  /** The components after the first `cloned_repos/<clone-dir>`, joined by "/"; `raw` when there are none. */
  function AfterClone(parts: seq<string>, raw: string): string {
    if CloneRoot in parts then
      var idx := IndexOfItem(parts, CloneRoot);
      if idx + 2 < |parts| then Join("/", parts[idx + 2..]) else raw
    else raw
  }

  /**
    The recorded file is the components after the first `cloned_repos/<clone-dir>`
    joined by "/", when there is at least one; otherwise the path as the runner printed it.
  */
  lemma RewriteClonePathSpec(raw: string)
    ensures var parts := Split(ReplaceChar(raw, '\\', '/'), "/");
      RewriteClonePath(raw) == if CloneRoot in parts && IndexOfItem(parts, CloneRoot) + 2 < |parts|
        then Join("/", parts[IndexOfItem(parts, CloneRoot) + 2..]) else raw
  {
    if CloneRoot in Split(ReplaceChar(raw, '\\', '/'), "/") {
      RewriteUnderClone(raw);
    }
  }

  lemma RewriteUnderClone(raw: string)
    requires CloneRoot in Split(ReplaceChar(raw, '\\', '/'), "/")
    ensures RewriteClonePath(raw) == AfterClone(Split(ReplaceChar(raw, '\\', '/'), "/"), raw)
  {
    var norm := ReplaceChar(raw, '\\', '/');
    SplitMemberOccurs(norm, "/", CloneRoot);
  }

  /** The recorded file is the printed path itself or a suffix of it with "\\" read as "/". */
  lemma RewriteIsSuffix(raw: string)
    ensures RewriteClonePath(raw) == raw || EndsWith(ReplaceChar(raw, '\\', '/'), RewriteClonePath(raw))
  {
    var norm := ReplaceChar(raw, '\\', '/');
    var parts := Split(norm, "/");
    RewriteClonePathSpec(raw);
    if CloneRoot in parts && IndexOfItem(parts, CloneRoot) + 2 < |parts| {
      SplitTailIsSuffix(norm, "/", IndexOfItem(parts, CloneRoot) + 2);
    }
  }

  /** Text without "/" in the recorded file already occurs in the printed path. */
  lemma RewriteKeepsText(raw: string, w: string)
    requires '/' !in w && Contains(RewriteClonePath(raw), w)
    ensures Contains(raw, w)
  {
    RewriteIsSuffix(raw);
    if RewriteClonePath(raw) != raw {
      ContainsInSuffix(ReplaceChar(raw, '\\', '/'), RewriteClonePath(raw), w);
      ReplaceCharKeepsOccurrence(raw, '\\', '/', w);
    }
  }

  /** Rewriting a path cannot introduce a library marker. */
  lemma RewriteKeepsMarks(raw: string)
    ensures Contains(RewriteClonePath(raw), "site-packages") ==> Contains(raw, "site-packages")
    ensures Contains(RewriteClonePath(raw), ".venv") ==> Contains(raw, ".venv")
  {
    if Contains(RewriteClonePath(raw), "site-packages") {
      RewriteKeepsText(raw, "site-packages");
    }
    if Contains(RewriteClonePath(raw), ".venv") {
      RewriteKeepsText(raw, ".venv");
    }
  }

  // ---------------------------------------------------------------------------
  // One line's entry
  // ---------------------------------------------------------------------------

  /** A traceback path inside an installed package or a virtual environment. */
  predicate TracebackLibraryPath(raw: string) {
    Contains(raw, "site-packages") || Contains(raw, ".venv")
  }

  /** A colon-style line inside an installed package, a virtual environment or a user's AppData. */
  predicate ColonLibraryLine(line: string) {
    Contains(line, "site-packages") || Contains(line, ".venv") || Contains(line, "AppData")
  }

  /** The path a traceback line quotes: from just after its first `"` up to the next `"`. */
  function QuotedPath(line: string): string {
    var pathStart := IndexOf(line, "\"") + 1;
    PySlice(line, pathStart, IndexFrom(line, "\"", pathStart))
  }

  /** A colon-style line's path as printed, line number (0 when it does not parse) and message. */
  function ColonParts(line: string): Option<(string, int, string)> {
    match SplitOnce(line, ": ")
    case None => None
    case Some((head, rest)) =>
      match RSplitOnceChar(Strip(LStripChar(Strip(head), 'E')), ':')
      case None => None
      case Some((raw, num)) => Some((raw, ParseInt(num).GetOr(0), Strip(rest)))
  }

  /** A failure record for a source location, classified on its message and the whole output. */
  function Located(file: string, line: int, msg: string, output: string): Failure {
    Failure(file, line, msg, ClassifyBug(msg + " " + output, ""))
  }

  /** The entry of the traceback line at `i`, if its line number parses and its path is not a library's. */
  function TracebackEntry(lines: seq<string>, i: nat, output: string): Option<Failure>
    requires i < |lines|
  {
    var line := Strip(lines[i]);
    var raw := QuotedPath(line);
    match TracebackLineNumber(line)
    case None => None
    case Some(n) =>
      if TracebackLibraryPath(raw) then None
      else Some(Located(RewriteClonePath(raw), n, TracebackMessage(lines, i), output))
  }

  /** The entry of a colon-style line, unless it mentions a library location or has no `:` line part. */
  function ColonEntry(line: string, output: string): Option<Failure> {
    if ColonLibraryLine(line) then None
    else match ColonParts(line)
      case None => None
      case Some((raw, n, msg)) => Some(Located(RewriteClonePath(raw), n, msg, output))
  }

  /** The source-specific entry line `i` contributes, if any. */
  function LineEntry(lines: seq<string>, i: nat, output: string): Option<Failure>
    requires i < |lines|
  {
    var line := Strip(lines[i]);
    if IsTracebackLine(line) then TracebackEntry(lines, i, output)
    else if IsColonLine(line) then ColonEntry(line, output)
    else None
  }

  /** The path of a colon-style line is a piece of the line. */
  lemma ColonPathInLine(line: string, w: string)
    ensures ColonParts(line).Some? && Contains(ColonParts(line).value.0, w) ==> Contains(line, w)
  {
    if ColonParts(line).Some? && Contains(ColonParts(line).value.0, w) {
      ColonPathPieces(line, w);
    }
  }

  lemma ColonPathPieces(line: string, w: string)
    requires ColonParts(line).Some? && Contains(ColonParts(line).value.0, w)
    ensures Contains(line, w)
  {
    var (head, rest) := SplitOnce(line, ": ").value;
    var (raw, num) := RSplitOnceChar(Strip(LStripChar(Strip(head), 'E')), ':').value;
    ContainsInConcat(raw, [':'], w);
    ContainsInConcat(raw + [':'], num, w);
    ContainsInStrip(LStripChar(Strip(head), 'E'), w);
    ContainsInLStripChar(Strip(head), 'E', w);
    ContainsInStrip(head, w);
    ContainsInConcat(head, ": ", w);
    ContainsInConcat(head + ": ", rest, w);
  }

  /** A traceback entry's path carries no library marker, and neither does its recorded file. */
  lemma TracebackEntryNotLibrary(lines: seq<string>, i: nat, output: string)
    requires i < |lines|
    ensures TracebackEntry(lines, i, output).Some? ==>
      var raw := QuotedPath(Strip(lines[i]));
      !Contains(raw, "site-packages") && !Contains(raw, ".venv")
    ensures TracebackEntry(lines, i, output).Some? ==>
      var f := TracebackEntry(lines, i, output).value;
      !Contains(f.file, "site-packages") && !Contains(f.file, ".venv")
  {
    if TracebackEntry(lines, i, output).Some? {
      RewriteKeepsMarks(QuotedPath(Strip(lines[i])));
    }
  }

  /** A colon-style entry comes from a line with no library marker, and its recorded file has none either. */
  lemma ColonEntryNotLibrary(line: string, output: string)
    ensures ColonEntry(line, output).Some? ==>
      !Contains(line, "site-packages") && !Contains(line, ".venv") && !Contains(line, "AppData")
    ensures ColonEntry(line, output).Some? ==>
      var f := ColonEntry(line, output).value;
      !Contains(f.file, "site-packages") && !Contains(f.file, ".venv")
  {
    if ColonEntry(line, output).Some? {
      var raw := ColonParts(line).value.0;
      ColonPathInLine(line, "site-packages");
      ColonPathInLine(line, ".venv");
      RewriteKeepsMarks(raw);
    }
  }

  // ---------------------------------------------------------------------------
  // Whole output
  // ---------------------------------------------------------------------------

  /** The source-specific entries of the first `k` lines, in line order. */
  function SpecificUpTo(lines: seq<string>, output: string, k: nat): seq<Failure>
    requires k <= |lines|
  {
    CollectedUpTo(LineEntries(lines, output), k)
  }
  function EntryList(e: Option<Failure>): (r: seq<Failure>)
    ensures |r| <= 1
  {
    if e.Some? then [e.value] else []
  }

  /** The test-file entry of a fallback line. */
  function FallbackEntry(line: string, output: string, testFile: string): Failure {
    Failure(testFile, 0, Strip(line), ClassifyBug(Strip(line), output))
  }

  /** The fallback entries of the first `k` lines, in line order. */
  function FallbackUpTo(lines: seq<string>, output: string, testFile: string, k: nat): seq<Failure>
    requires k <= |lines|
  {
    if k == 0 then []
    else FallbackUpTo(lines, output, testFile, k - 1) + if IsFallbackLine(lines[k - 1]) then [FallbackEntry(lines[k - 1], output, testFile)] else []
  }

  /** What deduplication compares: file, line and the first 100 characters of the message. */
  function KeyOf(f: Failure): (string, int, string) {
    (f.file, f.line, Take(f.errorMessage, 100))
  }

  function KeysOf(fs: seq<Failure>): set<(string, int, string)> {
    if fs == [] then {} else KeysOf(fs[..|fs| - 1]) + {KeyOf(fs[|fs| - 1])}
  }

  /** `fs` without every entry whose key an earlier entry already has. */
  function Dedup(fs: seq<Failure>): seq<Failure> {
    if fs == [] then []
    else
      var init := fs[..|fs| - 1];
      if KeyOf(fs[|fs| - 1]) in KeysOf(init) then Dedup(init) else Dedup(init) + [fs[|fs| - 1]]
  }

  /** No earlier entry of `fs` has the key of entry `i`. */
  predicate FirstOfKey(fs: seq<Failure>, i: nat)
    requires i < |fs|
  {
    forall j :: 0 <= j < i ==> KeyOf(fs[j]) != KeyOf(fs[i])
  }

  /** `KeysOf(fs)` is the set of the entries' keys. */
  lemma {:induction false} KeysOfMembers(fs: seq<Failure>, key: (string, int, string))
    ensures key in KeysOf(fs) <==> exists j :: 0 <= j < |fs| && KeyOf(fs[j]) == key
  {
    if fs != [] {
      var init := fs[..|fs| - 1];
      KeysOfMembers(init, key);
      if key in KeysOf(init) {
        var j :| 0 <= j < |init| && KeyOf(init[j]) == key;
        assert fs[j] == init[j];
      }
      if exists j :: 0 <= j < |fs| && KeyOf(fs[j]) == key {
        var j :| 0 <= j < |fs| && KeyOf(fs[j]) == key;
        if j < |init| {
          assert init[j] == fs[j];
        }
      }
    }
  }

  /** `idx` lists, increasing, positions of first entries of their keys in `fs`, and `d` holds those entries. */
  predicate Selects(fs: seq<Failure>, d: seq<Failure>, idx: seq<nat>) {
    && |idx| == |d|
    && (forall k :: 0 <= k < |idx| ==> idx[k] < |fs| && d[k] == fs[idx[k]] && FirstOfKey(fs, idx[k]))
    && (forall k, m :: 0 <= k < m < |idx| ==> idx[k] < idx[m])
  }

  /** A selection from a prefix is a selection from the whole list. */
  lemma SelectsExtend(fs: seq<Failure>, d: seq<Failure>, idx: seq<nat>)
    requires fs != [] && Selects(fs[..|fs| - 1], d, idx)
    ensures Selects(fs, d, idx)
  {
    var init := fs[..|fs| - 1];
    forall k | 0 <= k < |idx|
      ensures idx[k] < |fs| && d[k] == fs[idx[k]] && FirstOfKey(fs, idx[k])
    {
      assert FirstOfKey(init, idx[k]);
      assert forall j :: 0 <= j <= idx[k] ==> init[j] == fs[j];
    }
  }

  /** The last entry may be added to a selection when it is the first of its key. */
  lemma SelectsAppend(fs: seq<Failure>, d: seq<Failure>, idx: seq<nat>)
    requires fs != [] && Selects(fs, d, idx) && FirstOfKey(fs, |fs| - 1)
    requires forall k :: 0 <= k < |idx| ==> idx[k] < |fs| - 1
    ensures Selects(fs, d + [fs[|fs| - 1]], idx + [|fs| - 1])
  {
  }

  /**
    Deduplication keeps only first entries of their keys, in their original
    order: `idx` lists the positions it keeps, increasing.
  */
  lemma {:induction false} DedupSelectsFirsts(fs: seq<Failure>) returns (idx: seq<nat>)
    ensures Selects(fs, Dedup(fs), idx)
    ensures forall k :: 0 <= k < |idx| ==> idx[k] < |fs|
  {
    if fs == [] {
      idx := [];
    } else {
      var n := |fs| - 1;
      var init := fs[..n];
      var prev := DedupSelectsFirsts(init);
      SelectsExtend(fs, Dedup(init), prev);
      if KeyOf(fs[n]) in KeysOf(init) {
        idx := prev;
      } else {
        KeysOfMembers(init, KeyOf(fs[n]));
        forall j | 0 <= j < n
          ensures KeyOf(fs[j]) != KeyOf(fs[n])
        {
          assert fs[j] == init[j];
        }
        SelectsAppend(fs, Dedup(init), prev);
        idx := prev + [n];
      }
    }
  }

  /** The first entry of each key survives deduplication. */
  lemma {:induction false} DedupKeepsFirst(fs: seq<Failure>, i: nat)
    requires i < |fs| && FirstOfKey(fs, i)
    ensures fs[i] in Dedup(fs)
  {
    var n := |fs| - 1;
    var init := fs[..n];
    if i == n {
      KeysOfMembers(init, KeyOf(fs[n]));
    } else {
      assert forall j :: 0 <= j < i ==> init[j] == fs[j];
      assert init[i] == fs[i];
      DedupKeepsFirst(init, i);
    }
  }

  /** No two entries left by deduplication share a key. */
  lemma DedupDistinctKeys(fs: seq<Failure>)
    ensures forall k, m :: 0 <= k < m < |Dedup(fs)| ==> KeyOf(Dedup(fs)[k]) != KeyOf(Dedup(fs)[m])
  {
    var idx := DedupSelectsFirsts(fs);
    forall k, m | 0 <= k < m < |Dedup(fs)|
      ensures KeyOf(Dedup(fs)[k]) != KeyOf(Dedup(fs)[m])
    {
      assert idx[k] < idx[m] && FirstOfKey(fs, idx[m]);
    }
  }

  /** Deduplication only drops entries, and drops all of them only from an empty list. */
  lemma DedupSubset(fs: seq<Failure>)
    ensures forall f :: f in Dedup(fs) ==> f in fs
    ensures Dedup(fs) == [] <==> fs == []
  {
    var idx := DedupSelectsFirsts(fs);
    if fs != [] {
      DedupKeepsFirst(fs, 0);
    }
  }

  /** The entries of the first `k` of a list of optional entries, in order. */
  function CollectedUpTo(es: seq<Option<Failure>>, k: nat): seq<Failure>
    requires k <= |es|
  {
    if k == 0 then [] else CollectedUpTo(es, k - 1) + EntryList(es[k - 1])
  }

  /** Every collected entry is present at some position. */
  lemma {:induction false} CollectedFrom(es: seq<Option<Failure>>, k: nat, f: Failure) returns (j: nat)
    requires k <= |es| && f in CollectedUpTo(es, k)
    ensures j < k && es[j] == Some(f)
  {
    if f in CollectedUpTo(es, k - 1) {
      j := CollectedFrom(es, k - 1, f);
    } else {
      j := k - 1;
      EntryListMember(CollectedUpTo(es, k - 1), es[j], f);
    }
  }

  /** The optional source-specific entry of each line. */
  function LineEntries(lines: seq<string>, output: string): (r: seq<Option<Failure>>)
    ensures |r| == |lines|
  {
    seq(|lines|, i requires 0 <= i < |lines| => LineEntry(lines, i, output))
  }

  lemma LineEntriesAt(lines: seq<string>, output: string, i: nat)
    requires i < |lines|
    ensures LineEntries(lines, output)[i] == LineEntry(lines, i, output)
  {
  }

  /** Every source-specific entry comes from one line's traceback or colon shape. */
  lemma SpecificFromLine(lines: seq<string>, output: string, k: nat, f: Failure) returns (j: nat)
    requires k <= |lines| && f in SpecificUpTo(lines, output, k)
    ensures j < k && LineEntry(lines, j, output) == Some(f)
  {
    j := CollectedFrom(LineEntries(lines, output), k, f);
    LineEntriesAt(lines, output, j);
  }

  /** An entry appended after `prefix` from an optional entry is that entry. */
  lemma EntryListMember(prefix: seq<Failure>, e: Option<Failure>, f: Failure)
    requires f in prefix + EntryList(e) && f !in prefix
    ensures e == Some(f)
  {
  }

  /** Every fallback entry names the test file at line 0, with a failed-test line as its message. */
  lemma {:induction false} FallbackFromLine(lines: seq<string>, output: string, testFile: string, k: nat, f: Failure)
    requires k <= |lines| && f in FallbackUpTo(lines, output, testFile, k)
    ensures f.file == testFile && f.line == 0
    ensures exists j :: 0 <= j < k && IsFallbackLine(lines[j]) && f.errorMessage == Strip(lines[j])
  {
    if f in FallbackUpTo(lines, output, testFile, k - 1) {
      FallbackFromLine(lines, output, testFile, k - 1, f);
    } else {
      assert IsFallbackLine(lines[k - 1]) && f == FallbackEntry(lines[k - 1], output, testFile);
    }
  }

  /** The list `_parse_failures` deduplicates: the source-specific entries, or the fallback entries when there are none. */
  function Candidates(output: string, testFile: string): seq<Failure> {
    var lines := SplitLines(output);
    var specific := SpecificUpTo(lines, output, |lines|);
    if specific != [] then specific else FallbackUpTo(lines, output, testFile, |lines|)
  }

  /**
    What `_parse_failures(output, test_file)` returns: candidates kept in
    order, no two sharing file, line and the first 100 characters of the
    message, and none only when there is no candidate.
  */
  function ParseFailuresSpec(output: string, testFile: string): (r: seq<Failure>)
    ensures forall k, m :: 0 <= k < m < |r| ==> KeyOf(r[k]) != KeyOf(r[m])
    ensures forall f :: f in r ==> f in Candidates(output, testFile)
    ensures r == [] <==> Candidates(output, testFile) == []
  {
    DedupDistinctKeys(Candidates(output, testFile));
    DedupSubset(Candidates(output, testFile));
    Dedup(Candidates(output, testFile))
  }

  /** When any line has a source-specific shape, every reported failure comes from such a line. */
  lemma ParseFailuresSpecific(output: string, testFile: string)
    requires SpecificUpTo(SplitLines(output), output, |SplitLines(output)|) != []
    ensures forall f :: f in ParseFailuresSpec(output, testFile) ==>
      exists j :: 0 <= j < |SplitLines(output)| && LineEntry(SplitLines(output), j, output) == Some(f)
  {
    var lines := SplitLines(output);
    DedupSubset(Candidates(output, testFile));
    forall f | f in ParseFailuresSpec(output, testFile)
      ensures exists j :: 0 <= j < |lines| && LineEntry(lines, j, output) == Some(f)
    {
      var j := SpecificFromLine(lines, output, |lines|, f);
    }
  }

  /** Otherwise every reported failure is a fallback entry: the test file, line 0, a failed-test line as message. */
  lemma ParseFailuresFallback(output: string, testFile: string)
    requires SpecificUpTo(SplitLines(output), output, |SplitLines(output)|) == []
    ensures forall f :: f in ParseFailuresSpec(output, testFile) ==>
      && f.file == testFile && f.line == 0
      && exists j :: 0 <= j < |SplitLines(output)| && IsFallbackLine(SplitLines(output)[j]) && f.errorMessage == Strip(SplitLines(output)[j])
  {
    var lines := SplitLines(output);
    DedupSubset(Candidates(output, testFile));
    forall f | f in ParseFailuresSpec(output, testFile)
      ensures f.file == testFile && f.line == 0
      ensures exists j :: 0 <= j < |lines| && IsFallbackLine(lines[j]) && f.errorMessage == Strip(lines[j])
    {
      FallbackFromLine(lines, output, testFile, |lines|, f);
    }
  }

  /** Nothing is reported exactly when no line has either shape. */
  lemma ParseFailuresEmpty(output: string, testFile: string)
    ensures ParseFailuresSpec(output, testFile) == [] <==>
      var lines := SplitLines(output);
      SpecificUpTo(lines, output, |lines|) == [] && FallbackUpTo(lines, output, testFile, |lines|) == []
  {
    DedupSubset(Candidates(output, testFile));
  }

  /** The message search of the traceback branch: the first of the next three lines naming an error type. */
  method FindErrorMessage(lines: seq<string>, i: nat) returns (errorMsg: string)
    ensures errorMsg == TracebackMessage(lines, i)
  {
    errorMsg := "";
    var j := 1;
    while j < 4 && errorMsg == ""
      invariant 1 <= j <= 4
      invariant errorMsg == "" ==> MessageSearch(lines, i, 1) == MessageSearch(lines, i, j)
      invariant errorMsg != "" ==> errorMsg == MessageSearch(lines, i, 1)
    {
      if i + j < |lines| {
        var next := Strip(lines[i + j]);
        if NamesError(next) {
          NamesErrorNonEmpty(next);
          errorMsg := next;
        }
      }
      j := j + 1;
    }
    if errorMsg == "" {
      errorMsg := DefaultMessage;
    }
  }

  /** One step of the line scan: the entry line `i` contributes, if any. */
  method ScanLine(lines: seq<string>, i: nat, output: string) returns (entry: Option<Failure>)
    requires i < |lines|
    ensures entry == LineEntry(lines, i, output)
  {
    var line := Strip(lines[i]);
    entry := None;
    if Contains(line, "File \"") && Contains(line, ".py\", line ") {
      var raw := QuotedPath(line);
      var lineno := TracebackLineNumber(line);
      if lineno.Some? {
        var errorMsg := FindErrorMessage(lines, i);
        var sourceFile := RewriteClonePath(raw);
        if !TracebackLibraryPath(raw) {
          entry := Some(Located(sourceFile, lineno.value, errorMsg, output));
        }
      }
    } else if Contains(line, ".py:") && Contains(line, ": ") {
      entry := ColonEntry(line, output);
    }
  }

  /** The deduplication pass: keeps the first failure of each key, with a set of the keys seen. */
  method DedupFailures(failures: seq<Failure>) returns (unique: seq<Failure>)
    ensures unique == Dedup(failures)
  {
    var seen: set<(string, int, string)> := {};
    unique := [];
    var k := 0;
    while k < |failures|
      invariant 0 <= k <= |failures|
      invariant unique == Dedup(failures[..k]) && seen == KeysOf(failures[..k])
    {
      assert failures[..k + 1][..k] == failures[..k];
      var key := KeyOf(failures[k]);
      if key !in seen {
        seen := seen + {key};
        unique := unique + [failures[k]];
      }
      k := k + 1;
    }
    assert failures[..|failures|] == failures;
  }

  /** One line of the first pass. */
  method ScanStep(lines: seq<string>, output: string, i: nat, failures: seq<Failure>) returns (next: seq<Failure>)
    requires i < |lines| && failures == SpecificUpTo(lines, output, i)
    ensures next == SpecificUpTo(lines, output, i + 1)
  {
    var entry := ScanLine(lines, i, output);
    next := failures + EntryList(entry);
    LineEntriesAt(lines, output, i);
  }

  /** The first pass of `_parse_failures`: every line's source-specific entry, in line order. */
  method ScanSpecific(lines: seq<string>, output: string) returns (failures: seq<Failure>, foundSpecific: bool)
    ensures failures == SpecificUpTo(lines, output, |lines|)
    ensures foundSpecific <==> failures != []
  {
    failures := [];
    var i := 0;
    while i < |lines|
      invariant 0 <= i <= |lines|
      invariant failures == SpecificUpTo(lines, output, i)
    {
      failures := ScanStep(lines, output, i, failures);
      i := i + 1;
    }
    foundSpecific := failures != [];
  }

  /** The second pass, run only when the first found nothing: an entry for the test file per failed-test line. */
  method ScanFallback(lines: seq<string>, output: string, testFile: string) returns (failures: seq<Failure>)
    ensures failures == FallbackUpTo(lines, output, testFile, |lines|)
  {
    failures := [];
    var k := 0;
    while k < |lines|
      invariant 0 <= k <= |lines|
      invariant failures == FallbackUpTo(lines, output, testFile, k)
    {
      failures := FallbackStep(lines, output, testFile, k, failures);
      k := k + 1;
    }
  }

  /** One line of the second pass. */
  method FallbackStep(lines: seq<string>, output: string, testFile: string, k: nat, failures: seq<Failure>) returns (next: seq<Failure>)
    requires k < |lines| && failures == FallbackUpTo(lines, output, testFile, k)
    ensures next == FallbackUpTo(lines, output, testFile, k + 1)
  {
    next := failures;
    if IsFallbackLine(lines[k]) {
      var errorMsg := Strip(lines[k]);
      next := failures + [Failure(testFile, 0, errorMsg, ClassifyBug(errorMsg, output))];
    }
  }

  /** `_parse_failures`: the line scan, the fallback scan when it found nothing, then deduplication. */
  method ParseFailures(output: string, testFile: string) returns (unique: seq<Failure>)
    ensures unique == ParseFailuresSpec(output, testFile)
  {
    var lines := SplitLines(output);
    var failures, foundSpecific := ScanSpecific(lines, output);
    if !foundSpecific {
      failures := ScanFallback(lines, output, testFile);
    }
    unique := DedupFailures(failures);
  }

  /** What running the test command did: it exited with a return code and its captured output, ran past the time limit, or raised. */
  datatype ProcessOutcome = Exited(returnCode: int, stdout: string, stderr: string) | TimedOut | Crashed(reason: string)

  const TimeoutMessage := "Test run timed out after 300 seconds."

  /** The message of the generic failure recorded when a failed run yields no parsed failure. */
  function RunnerFailedMessage(returnCode: int, combined: string): string {
    "Test runner execution failed (return code " + IntToString(returnCode) + ").\n" + Strip(combined)
  }

  /**
    `_execute_and_parse` after the process: a run passes exactly when it exited
    with return code 0, and a run that did not pass always carries a failure.
  */
  method ExecuteAndParse(testFile: string, outcome: ProcessOutcome) returns (result: TestResult)
    ensures result.testFile == testFile
    ensures result.passed <==> outcome.Exited? && outcome.returnCode == 0
    ensures !result.passed ==> |result.failures| >= 1
    ensures outcome.Exited? ==>
      var combined := outcome.stdout + "\n" + outcome.stderr;
      var parsed := ParseFailuresSpec(combined, testFile);
      && result.stdout == outcome.stdout && result.stderr == outcome.stderr
      && result.failures == (if outcome.returnCode != 0 && parsed == [] then [Failure(testFile, 0, RunnerFailedMessage(outcome.returnCode, combined), Logic)] else parsed)
    ensures outcome.TimedOut? ==> result == TestResult(testFile, false, "", TimeoutMessage, [Failure(testFile, 0, "Timeout", Logic)])
    ensures outcome.Crashed? ==> result == TestResult(testFile, false, "", outcome.reason, [Failure(testFile, 0, outcome.reason, Logic)])
  {
    match outcome {
      case Exited(returnCode, stdout, stderr) =>
        var combined := stdout + "\n" + stderr;
        var passed := returnCode == 0;
        var failures := ParseFailures(combined, testFile);
        if !passed && failures == [] {
          failures := failures + [Failure(testFile, 0, RunnerFailedMessage(returnCode, combined), Logic)];
        }
        result := TestResult(testFile, passed, stdout, stderr, failures);
      case TimedOut =>
        result := TestResult(testFile, false, "", TimeoutMessage, [Failure(testFile, 0, "Timeout", Logic)]);
      case Crashed(reason) =>
        result := TestResult(testFile, false, "", reason, [Failure(testFile, 0, reason, Logic)]);
    }
  }

  /** The test command of `_run_locally`, or the result it returns at once for a file it cannot run. */
  datatype Invocation = Execute(command: seq<string>) | Refused(result: TestResult)

  predicate IsScriptSuffix(ext: string) {
    ext == ".js" || ext == ".ts" || ext == ".jsx" || ext == ".tsx"
  }

  /**
    `_run_locally`'s choice of command from the test file's suffix; `python` is
    the running interpreter and `hasBunLock` whether the repository has a `bun.lockb`.
  */
  function LocalInvocation(testFile: string, python: string, hasBunLock: bool): (r: Invocation)
    ensures r.Execute? <==> Suffix(testFile) == ".py" || IsScriptSuffix(Suffix(testFile))
    ensures r.Execute? ==> testFile in r.command
    ensures r.Execute? ==> |r.command| >= 3
    ensures r.Execute? && Suffix(testFile) == ".py" ==> r.command[..3] == [python, "-m", "pytest"]
    ensures r.Execute? && Suffix(testFile) != ".py" ==> r.command[0] == (if hasBunLock then "bun" else "npx")
    ensures r.Refused? ==> r.result == TestResult(testFile, false, "", "Unsupported test file extension: " + Suffix(testFile), [])
  {
    var ext := Suffix(testFile);
    if ext == ".py" then Execute([python, "-m", "pytest", testFile, "--tb=line", "-p", "no:cacheprovider", "-q"])
    else if IsScriptSuffix(ext) then
      if hasBunLock then Execute(["bun", "test", testFile]) else Execute(["npx", "jest", testFile, "--passWithNoTests"])
    else Refused(TestResult(testFile, false, "", "Unsupported test file extension: " + ext, []))
  }

  /** `_run_locally` with the process outcome of the chosen command given. */
  method RunLocally(testFile: string, python: string, hasBunLock: bool, outcome: ProcessOutcome) returns (result: TestResult)
    ensures LocalInvocation(testFile, python, hasBunLock).Refused? ==> result == LocalInvocation(testFile, python, hasBunLock).result
    ensures result.testFile == testFile
    ensures result.passed <==> LocalInvocation(testFile, python, hasBunLock).Execute? && outcome.Exited? && outcome.returnCode == 0
    ensures LocalInvocation(testFile, python, hasBunLock).Execute? && !result.passed ==> |result.failures| >= 1
  {
    var invocation := LocalInvocation(testFile, python, hasBunLock);
    if invocation.Refused? {
      result := invocation.result;
    } else {
      result := ExecuteAndParse(testFile, outcome);
    }
  }
}
