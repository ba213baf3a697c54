/**
 * The helpers of lib/ai/utils.ts: the two-message prompt, the stream-chunk check,
 * input sanitising, and the fenced-code-block scanner.
 */
module AiUtils {
  import opened Wrappers
  import opened Text

  /** The roles of a prompt message. */
  datatype PromptRole = SystemRole | UserRole | AssistantRole

  datatype PromptMessage = PromptMessage(role: PromptRole, content: string)

  /** `buildMessagesForAPI`: the system prompt, then the user message, and nothing else. */
  function BuildMessagesForApi(userMessage: string, systemPrompt: string): (r: seq<PromptMessage>)
    ensures |r| == 2
    ensures r[0] == PromptMessage(SystemRole, systemPrompt) && r[1] == PromptMessage(UserRole, userMessage)
  {
    [PromptMessage(SystemRole, systemPrompt), PromptMessage(UserRole, userMessage)]
  }

  /** `isValidStreamChunk`; a value that is not a string is `None`. */
  function IsValidStreamChunk(chunk: Option<string>): (r: bool)
    ensures r <==> chunk.Some? && chunk.value != ""
  {
    chunk.Some? && |chunk.value| > 0
  }

  const MaxInputLength: nat := 10000

  /** `input.trim().slice(0, 10000)`: a prefix of the trimmed input, at most 10000 long,
      which is the whole trimmed input when that fits. */
  function SanitizeUserInput(input: string): (r: string)
    ensures r <= Trim(input)
    ensures |r| <= MaxInputLength
    ensures |Trim(input)| <= MaxInputLength ==> r == Trim(input)
    ensures |Trim(input)| > MaxInputLength ==> |r| == MaxInputLength
  {
    var t := Trim(input);
    t[..Min(|t|, MaxInputLength)]
  }

  /** When the trimmed input fits the limit, sanitising is idempotent.  Without that bound
      it is not: the cut can leave white space at the end, which a second pass trims. */
  lemma SanitizeKeepsShortTrimmed(input: string)
    requires |Trim(input)| <= MaxInputLength
    ensures SanitizeUserInput(SanitizeUserInput(input)) == SanitizeUserInput(input)
  {
    var t := Trim(input);
    assert SanitizeUserInput(input) == t;
    TrimOfTrimmed(t);
  }

  // ---------------------------------------------------------------------
  // extractCodeBlocks: /```(\w+)?\n([\s\S]*?)\n```/g
  // ---------------------------------------------------------------------

  const Fence: string := "```"
  const Closing: string := "\n```"
  const PlainText: string := "plaintext"

  /** One block as the function returns it. */
  datatype CodeBlock = CodeBlock(language: string, code: string)

  /** One match of the regular expression: where it starts and ends, the tag (empty when
      the fence has none) and the body. */
  datatype Found = Found(start: nat, tag: string, code: string, end: nat)

  /** The match starting exactly at `i`, if any.  The greedy `(\w+)?` can only be followed
      by the `\n` when it takes the whole run of word characters, and the lazy body ends at
      the first `\n```` after that line feed. */
  function MatchAt(s: string, i: nat): (r: Option<Found>)
    requires i <= |s|
    ensures r.Some? ==> r.value.start == i && i < r.value.end <= |s| && OccursAt(s, Fence, i)
  {
    if !(i + 3 <= |s| && s[i..i + 3] == Fence) then None
    else
      var j := i + 3 + WordRun(s, i + 3);
      if !(j < |s| && s[j] == '\n') then None
      else match IndexFrom(s, Closing, j + 1)
        case None => None
        case Some(k) => Some(Found(i, s[i + 3..j], s[j + 1..k], k + 4))
  }

  /** A match is the fence, a tag of word characters, a line feed, a body holding no closing
      fence, and the closing fence, in that order and with nothing in between. */
  lemma MatchAtShape(s: string, i: nat)
    requires i <= |s| && MatchAt(s, i).Some?
    ensures var f := MatchAt(s, i).value;
      s[i..f.end] == Fence + f.tag + "\n" + f.code + Closing &&
      (forall k :: 0 <= k < |f.tag| ==> IsWordChar(f.tag[k])) &&
      !Contains(f.code, Closing)
  {
    var j := i + 3 + WordRun(s, i + 3);
    var k := IndexFrom(s, Closing, j + 1).value;
    assert MatchAt(s, i) == Some(Found(i, s[i + 3..j], s[j + 1..k], k + 4));
    IndexFromIsLeftmost(s, Closing, j + 1);
    BodyHasNoClosing(s, j + 1, k);
    MatchText(s, i, j, k);
  }

  /** The text from a fence at `i` to the end of a closing fence at `k`, with the line feed
      at `j`, is made of those pieces. */
  lemma MatchText(s: string, i: nat, j: nat, k: nat)
    requires i + 3 <= j < k && k + 4 <= |s|
    requires s[i..i + 3] == Fence && s[j] == '\n' && s[k..k + 4] == Closing
    ensures s[i..k + 4] == Fence + s[i + 3..j] + "\n" + s[j + 1..k] + Closing
  {
    var tag, code := s[i + 3..j], s[j + 1..k];
    SliceSplit(s, j + 1, k, k + 4);
    var b := s[j + 1..k + 4];
    assert b == code + Closing;
    SliceSplit(s, j, j + 1, k + 4);
    var c := s[j..k + 4];
    assert c == "\n" + b;
    SliceSplit(s, i + 3, j, k + 4);
    var d := s[i + 3..k + 4];
    assert d == tag + c;
    SliceSplit(s, i, i + 3, k + 4);
    assert s[i..k + 4] == Fence + d;
  }

  lemma SliceSplit(s: string, a: nat, b: nat, c: nat)
    requires a <= b <= c <= |s|
    ensures s[a..c] == s[a..b] + s[b..c]
  {
  }

  lemma SliceOfSlice(s: string, a: nat, b: nat, c: nat, d: nat)
    requires a <= b <= |s| && c <= d <= b - a
    ensures s[a..b][c..d] == s[a + c..a + d]
  {
    forall q | 0 <= q < d - c ensures s[a..b][c..d][q] == s[a + c..a + d][q] {
    }
  }

  /** The text between `from` and the first closing fence after it holds no closing fence. */
  lemma BodyHasNoClosing(s: string, from: nat, k: nat)
    requires from <= k && OccursAt(s, Closing, k)
    requires forall j :: from <= j < k ==> !OccursAt(s, Closing, j)
    ensures !Contains(s[from..k], Closing)
  {
    var body := s[from..k];
    ContainsIff(body, Closing);
    forall t | 0 <= t <= |body| - |Closing| ensures !OccursAt(body, Closing, t) {
      SliceOfSlice(s, from, k, t, t + |Closing|);
      assert !OccursAt(s, Closing, from + t);
    }
  }

  /** What `exec` finds with `lastIndex` at `from`: the first match starting there or later. */
  function NextMatch(s: string, from: nat): (r: Option<Found>)
    requires from <= |s|
    ensures r.Some? ==> from <= r.value.start < r.value.end <= |s|
    ensures r.Some? ==> MatchAt(s, r.value.start) == r
    decreases |s| - from
  {
    match MatchAt(s, from)
    case Some(f) => Some(f)
    case None => if from == |s| then None else NextMatch(s, from + 1)
  }

  /** No match starts between `from` and the one `NextMatch` returns, and none at all when it
      returns nothing. */
  lemma {:induction false} NextMatchIsLeftmost(s: string, from: nat, i: nat)
    requires from <= i <= |s|
    requires NextMatch(s, from).None? || i < NextMatch(s, from).value.start
    ensures MatchAt(s, i).None?
    decreases i - from
  {
    if i > from {
      assert MatchAt(s, from).None?;
      NextMatchIsLeftmost(s, from + 1, i);
    }
  }

  /** The matches `exec` returns one after the other, the search resuming where the previous
      match ended. */
  function Matches(s: string, from: nat): (r: seq<Found>)
    requires from <= |s|
    ensures forall m :: 0 <= m < |r| ==> from <= r[m].start < r[m].end <= |s|
    ensures forall m :: 0 < m < |r| ==> r[m - 1].end <= r[m].start
    decreases |s| - from
  {
    match NextMatch(s, from)
    case None => []
    case Some(f) => [f] + Matches(s, f.end)
  }

  /** Each element of `Matches` is the match at its own start. */
  lemma {:induction false} MatchesAreMatches(s: string, from: nat, m: nat)
    requires from <= |s| && m < |Matches(s, from)|
    ensures MatchAt(s, Matches(s, from)[m].start) == Some(Matches(s, from)[m])
    decreases |s| - from
  {
    var f := NextMatch(s, from).value;
    if m > 0 {
      MatchesAreMatches(s, f.end, m - 1);
    }
  }

  /** `{ language: match[1] || "plaintext", code: match[2] }`. */
  function ToBlock(f: Found): CodeBlock {
    CodeBlock(if f.tag == "" then PlainText else f.tag, f.code)
  }

  function ToBlocks(found: seq<Found>): (r: seq<CodeBlock>)
    ensures |r| == |found|
    ensures forall m :: 0 <= m < |found| ==> r[m] == ToBlock(found[m])
  {
    seq(|found|, m requires 0 <= m < |found| => ToBlock(found[m]))
  }

  lemma ToBlocksCons(done: seq<CodeBlock>, f: Found, rest: seq<Found>)
    ensures done + ToBlocks([f] + rest) == (done + [ToBlock(f)]) + ToBlocks(rest)
  {
    assert ToBlocks([f] + rest) == [ToBlock(f)] + ToBlocks(rest);
  }

  /** `extractCodeBlocks`: the `while ((match = codeBlockRegex.exec(content)) !== null)`
      loop, with `lastIndex` moving to the end of each match. */
  method ExtractCodeBlocks(content: string) returns (blocks: seq<CodeBlock>)
    ensures blocks == ToBlocks(Matches(content, 0))
  {
    blocks := [];
    var lastIndex := 0;
    while true
      invariant lastIndex <= |content|
      invariant blocks + ToBlocks(Matches(content, lastIndex)) == ToBlocks(Matches(content, 0))
      decreases |content| - lastIndex
    {
      var match_ := NextMatch(content, lastIndex);
      if match_.None? {
        break;
      }
      var f := match_.value;
      assert Matches(content, lastIndex) == [f] + Matches(content, f.end);
      ToBlocksCons(blocks, f, Matches(content, f.end));
      blocks := blocks + [ToBlock(f)];
      lastIndex := f.end;
    }
  }

  /** Text with no fence has no code block. */
  lemma {:induction false} NoFenceNoBlocks(s: string, from: nat)
    requires from <= |s| && !Contains(s, Fence)
    ensures Matches(s, from) == []
  {
    var r := NextMatch(s, from);
    ContainsIff(s, Fence);
  }

  /** Every block is a language tag and a body as the pattern requires: the language is
      `plaintext` exactly for an untagged fence and otherwise the tag's word characters, and
      no body holds a closing fence. */
  lemma BlocksAreWellFormed(s: string, m: nat)
    requires m < |Matches(s, 0)|
    ensures var f := Matches(s, 0)[m]; var b := ToBlocks(Matches(s, 0))[m];
      b.code == f.code && !Contains(b.code, Closing) &&
      (f.tag == "" ==> b.language == PlainText) &&
      (f.tag != "" ==> b.language == f.tag && forall k :: 0 <= k < |b.language| ==> IsWordChar(b.language[k]))
  {
    var f := Matches(s, 0)[m];
    MatchesAreMatches(s, 0, m);
    MatchAtShape(s, f.start);
  }
}
