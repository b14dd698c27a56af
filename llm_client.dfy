/**
  The deterministic parts of the LLM client (llm_client.py): extracting code
  from a markdown reply, the commit-message fallback, and the last-resort
  answer of `generate_fix`. The replies of the two model backends are inputs:
  `None` stands for a call that raised.
*/
module LlmClient {
  import opened Wrappers
  import opened PyText

  const Fence := "```"

  /** The language tags `_strip_markdown` drops from the first line of a fenced block. */
  const LanguageTags: set<string> := {"python", "javascript", "js", "ts", "typescript", "jsx", "tsx", "html", "css"}

  /** A fence always splits the text into at least two pieces. */
  lemma FenceSplits(text: string)
    requires Contains(text, Fence)
    ensures |Split(text, Fence)| >= 2
  {
  }

  /** The text between the first fence and the next one, or after the first fence when it is the only one. */
  function FencedBlock(text: string): (r: string)
    requires Contains(text, Fence)
    ensures !Contains(r, Fence)
    ensures var (before, after) := SplitOnce(text, Fence).value;
      && !Contains(before, Fence)
      && (if Contains(after, Fence) then r == SplitOnce(after, Fence).value.0 else r == after)
  {
    FenceSplits(text);
    SplitPiecesLackSep(text, Fence, 1);
    Split(text, Fence)[1]
  }

  /** `_strip_markdown`: the code of the first fenced block, without a language tag line, trimmed; otherwise the trimmed text. */
  function StripMarkdown(text: string): (r: string)
    ensures !Contains(text, Fence) ==> r == Strip(text)
  {
    if Contains(text, Fence) then
      var parts := Split(text, Fence);
      if |parts| >= 2 then
        var content := parts[1];
        var lines := SplitLines(content);
        if |lines| > 0 && Lower(Strip(lines[0])) in LanguageTags then Strip(Join("\n", lines[1..]))
        else Strip(content)
      else Strip(text)
    else Strip(text)
  }

  /**
    For a fenced reply the result is the trimmed block, or, when the block's
    first line is a language tag, the trimmed rest of the block's lines.
  */
  lemma StripMarkdownFenced(text: string)
    requires Contains(text, Fence)
    ensures var lines := SplitLines(FencedBlock(text));
      && (|lines| > 0 && Lower(Strip(lines[0])) in LanguageTags ==> StripMarkdown(text) == Strip(Join("\n", lines[1..])))
      && (!(|lines| > 0 && Lower(Strip(lines[0])) in LanguageTags) ==> StripMarkdown(text) == Strip(FencedBlock(text)))
  {
    FenceSplits(text);
  }

  /** The result of `_strip_markdown` never contains a fence. */
  lemma StripMarkdownNoFence(text: string)
    ensures !Contains(StripMarkdown(text), Fence)
  {
    if Contains(text, Fence) {
      var content := FencedBlock(text);
      var lines := SplitLines(content);
      if |lines| > 0 && Lower(Strip(lines[0])) in LanguageTags {
        forall k | 0 <= k < |lines[1..]|
          ensures !Contains(lines[1..][k], Fence)
        {
          if Contains(lines[1..][k], Fence) {
            SplitLinesInside(content, k + 1, Fence);
          }
        }
        JoinLacks('\n', lines[1..], Fence);
        if Contains(StripMarkdown(text), Fence) {
          ContainsInStrip(Join("\n", lines[1..]), Fence);
        }
      } else if Contains(StripMarkdown(text), Fence) {
        ContainsInStrip(content, Fence);
      }
    } else if Contains(StripMarkdown(text), Fence) {
      ContainsInStrip(text, Fence);
    }
  }

  /** The commit message used when the model gives none: the bug type and the first 60 characters of the error. */
  function FallbackCommitMessage(bugType: string, errorMessage: string): (r: string)
    ensures |r| == |bugType| + 12 + (if |errorMessage| < 60 then |errorMessage| else 60)
    ensures r[..|bugType| + 12] == "Fix " + bugType + " error: "
    ensures r[|bugType| + 12..] <= errorMessage
  {
    "Fix " + bugType + " error: " + Take(errorMessage, 60)
  }

  /**
    `explain_error`: the first line of the model's reply; the fallback message
    when the call raised or the reply is blank (indexing an empty line list raises).
  */
  function ExplainError(bugType: string, errorMessage: string, reply: Option<string>): (r: string)
    ensures reply.None? ==> r == FallbackCommitMessage(bugType, errorMessage)
    ensures reply.Some? && Strip(reply.value) == [] ==> r == FallbackCommitMessage(bugType, errorMessage)
    ensures reply.Some? && Strip(reply.value) != [] ==> r == SplitLines(Strip(reply.value))[0]
  {
    match reply
    case None => FallbackCommitMessage(bugType, errorMessage)
    case Some(answer) =>
      var lines := SplitLines(Strip(answer));
      if |lines| > 0 then lines[0] else FallbackCommitMessage(bugType, errorMessage)
  }

  /**
    `generate_fix` given the two replies: the primary backend's answer when it
    came, else the local backend's trimmed answer, else the original code unchanged.
  */
  function GenerateFix(originalCode: string, primary: Option<string>, local: Option<string>): (r: string)
    ensures primary.None? && local.None? ==> r == originalCode
    ensures primary.Some? ==> r == StripMarkdown(primary.value)
    ensures primary.None? && local.Some? ==> r == StripMarkdown(Strip(local.value))
  {
    match primary
    case Some(answer) => StripMarkdown(answer)
    case None =>
      match local
      case Some(answer) => StripMarkdown(Strip(answer))
      case None => originalCode
  }

  /** A model answer never leaves a fence in the code written back. */
  lemma GenerateFixNoFence(originalCode: string, primary: Option<string>, local: Option<string>)
    requires primary.Some? || local.Some?
    ensures !Contains(GenerateFix(originalCode, primary, local), Fence)
  {
    if primary.Some? {
      StripMarkdownNoFence(primary.value);
    } else {
      StripMarkdownNoFence(Strip(local.value));
    }
  }

  /**
    `generate_tests_for_code` given the primary backend's answer, or the text
    of the exception it raised: the extracted code, or a comment naming the failure.
  */
  function GenerateTestsForCode(reply: Result<string, string>): (r: string)
    ensures reply.Ok? ==> r == StripMarkdown(reply.value) && !Contains(r, Fence)
    ensures reply.Err? ==> r == "// Generation failed\n// " + reply.error
  {
    match reply
    case Ok(answer) =>
      StripMarkdownNoFence(answer);
      StripMarkdown(answer)
    case Err(exc) => "// Generation failed\n// " + exc
  }
}
