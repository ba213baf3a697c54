/**
 * The question-suggestions endpoint (app/api/suggestions/route.tsx): the reply of one
 * chat completion is cleaned of code fences, the first-to-last bracket span is parsed
 * as JSON, and at most four of its elements go back to the page.
 */
module SuggestionsRoute {
  import opened Wrappers
  import opened Text

  /** The completion call: it either throws, or yields the first choice's message content,
      which may be missing. */
  datatype Completion = CallFailed | Completed(content: Option<string>)

  /** `completion.choices?.[0]?.message?.content ?? ""`. */
  function RawReply(c: Completion): (r: string)
    requires c.Completed?
    ensures c.content.Some? ==> r == c.content.value
    ensures c.content.None? ==> r == ""
  {
    c.content.GetOr("")
  }

  // ---------------------------------------------------------------------
  // raw.replace(/```[a-z]*\n?/gi, "")
  // ---------------------------------------------------------------------

  /** Three backticks in a row. */
  predicate TripleAt(s: string, j: int) {
    0 <= j && j + 2 < |s| && s[j] == '`' && s[j + 1] == '`' && s[j + 2] == '`'
  }

  predicate NoTriple(s: string) {
    forall j :: 0 <= j < |s| ==> !TripleAt(s, j)
  }

  /** The length of the run of ASCII letters (either case, as the `i` flag makes `[a-z]`)
      starting at `i`. */
  function LetterRun(s: string, i: nat): (n: nat)
    requires i <= |s|
    ensures i + n <= |s|
    ensures forall k :: i <= k < i + n ==> IsLetter(s[k])
    ensures i + n == |s| || !IsLetter(s[i + n])
    decreases |s| - i
  {
    if i < |s| && IsLetter(s[i]) then 1 + LetterRun(s, i + 1) else 0
  }

  /** The length of the fence match at the start of `s`: the backticks, the greedy letter
      run, and the line feed when one follows. */
  function FenceLength(s: string): (n: nat)
    requires TripleAt(s, 0)
    ensures 3 <= n <= |s|
  {
    var m := 3 + LetterRun(s, 3);
    if m < |s| && s[m] == '\n' then m + 1 else m
  }

  /** The global replacement scans left to right: a fence match is dropped and the scan
      resumes after it; any other character is kept. */
  function StripFences(s: string): (r: string)
    ensures |r| <= |s|
    decreases |s|
  {
    if s == [] then []
    else if TripleAt(s, 0) then StripFences(s[FenceLength(s)..])
    else [s[0]] + StripFences(s[1..])
  }

  /** No three backticks survive the replacement: a kept backtick is never followed by two
      more, since those three would have started a fence match. */
  lemma {:induction false} StripLeavesNoTriple(s: string)
    ensures NoTriple(StripFences(s))
    decreases |s|
  {
    if s == [] {
    } else if TripleAt(s, 0) {
      StripLeavesNoTriple(s[FenceLength(s)..]);
    } else {
      var t := StripFences(s[1..]);
      StripLeavesNoTriple(s[1..]);
      var r := [s[0]] + t;
      assert StripFences(s) == r;
      forall j | 0 <= j < |r| ensures !TripleAt(r, j) {
        if j > 0 {
          assert !TripleAt(t, j - 1);
        } else if s[0] == '`' && |t| >= 2 && t[0] == '`' {
          KeptHead(s[1..]);
          assert s[1] == '`';
          KeptHead(s[2..]);
          assert t[1] == s[2];
        }
      }
    }
  }

  /** A string that does not start with three backticks keeps its first character. */
  lemma KeptHead(s: string)
    requires s != [] && !TripleAt(s, 0)
    ensures StripFences(s) == [s[0]] + StripFences(s[1..])
  {
  }

  /** Text without three backticks in a row is left as it is. */
  lemma {:induction false} StripKeepsFenceFree(s: string)
    requires NoTriple(s)
    ensures StripFences(s) == s
    decreases |s|
  {
    if s != [] {
      assert !TripleAt(s, 0);
      forall j | 0 <= j < |s[1..]| ensures !TripleAt(s[1..], j) {
        assert !TripleAt(s, j + 1);
      }
      StripKeepsFenceFree(s[1..]);
    }
  }

  /** Stripping twice is stripping once. */
  lemma StripIdempotent(s: string)
    ensures StripFences(StripFences(s)) == StripFences(s)
  {
    StripLeavesNoTriple(s);
    StripKeepsFenceFree(StripFences(s));
  }

  lemma NoTripleSlice(s: string, a: nat, b: nat)
    requires NoTriple(s) && a <= b <= |s|
    ensures NoTriple(s[a..b])
  {
    forall j | 0 <= j < b - a ensures !TripleAt(s[a..b], j) {
      assert !TripleAt(s, a + j);
    }
  }

  /** `raw.replace(/```[a-z]*\n?/gi, "").trim()`. */
  function Clean(raw: string): (r: string)
    ensures NoTriple(r)
    ensures r == [] || (!IsSpace(r[0]) && !IsSpace(r[|r| - 1]))
  {
    var stripped := StripFences(raw);
    StripLeavesNoTriple(raw);
    var t := TrimStart(stripped);
    NoTripleSlice(stripped, |stripped| - |t|, |stripped|);
    assert t == stripped[|stripped| - |t|..|stripped|];
    NoTripleSlice(t, 0, |TrimEnd(t)|);
    Trim(stripped)
  }

  /** Cleaning a reply that is already clean changes nothing. */
  lemma CleanIdempotent(raw: string)
    ensures Clean(Clean(raw)) == Clean(raw)
  {
    var c := Clean(raw);
    StripKeepsFenceFree(c);
    TrimOfTrimmed(c);
  }

  // ---------------------------------------------------------------------
  // cleaned.match(/\[[\s\S]*\]/)
  // ---------------------------------------------------------------------

  /** The first position of `c`, if any. */
  function FirstIndex(s: string, c: char): (r: Option<nat>)
    ensures r.Some? ==> r.value < |s| && s[r.value] == c
    ensures forall k :: 0 <= k < |s| && (r.None? || k < r.value) ==> s[k] != c
  {
    if s == [] then None
    else if s[0] == c then Some(0)
    else match FirstIndex(s[1..], c)
      case None => None
      case Some(k) => Some(k + 1)
  }

  /** The last position of `c`, if any. */
  function LastIndex(s: string, c: char): (r: Option<nat>)
    ensures r.Some? ==> r.value < |s| && s[r.value] == c
    ensures forall k :: 0 <= k < |s| && (r.None? || k > r.value) ==> s[k] != c
  {
    if s == [] then None
    else if s[|s| - 1] == c then Some(|s| - 1)
    else LastIndex(s[..|s| - 1], c)
  }

  /** The leftmost match: it starts at the first `[`, and the greedy `[\s\S]*` backs off
      only as far as the last `]`, which must come after that `[`. */
  function ArraySpan(s: string): (r: Option<string>)
    ensures r.Some? ==> |r.value| >= 2 && r.value[0] == '[' && r.value[|r.value| - 1] == ']'
  {
    match FirstIndex(s, '[')
    case None => None
    case Some(i) =>
      match LastIndex(s, ']')
      case None => None
      case Some(j) => if i < j then Some(s[i..j + 1]) else None
  }

  /** There is a match exactly when some `[` comes before some `]`. */
  lemma ArraySpanIff(s: string)
    ensures ArraySpan(s).Some? <==> exists i, j :: 0 <= i < j < |s| && s[i] == '[' && s[j] == ']'
  {
  }

  /** The match runs from the first `[` to the last `]`. */
  lemma ArraySpanIsWidest(s: string, i: nat, j: nat)
    requires i < j < |s| && s[i] == '[' && s[j] == ']'
    requires forall k :: 0 <= k < i ==> s[k] != '['
    requires forall k :: j < k < |s| ==> s[k] != ']'
    ensures ArraySpan(s) == Some(s[i..j + 1])
  {
    var first, last := FirstIndex(s, '['), LastIndex(s, ']');
    assert first == Some(i);
    assert last == Some(j);
  }

  // ---------------------------------------------------------------------
  // JSON.parse and the reply
  // ---------------------------------------------------------------------

  /** What `JSON.parse` yields, as far as the route looks at it: an array, with each element
      as its JSON text, or any other value. */
  datatype Parsed = JsonArray(elements: seq<string>) | OtherJson

  /** Why the route gave up; each is thrown and caught, and logs one message. */
  datatype Failure = CompletionError | NoJsonArray | ParseError | InvalidArray

  datatype Outcome = Suggestions(items: seq<string>) | Failed(reason: Failure)

  /** The body of the `try`; `parse` stands for `JSON.parse`, with `None` for a syntax
      error. */
  function Suggest(completion: Completion, parse: string -> Option<Parsed>): (r: Outcome)
    ensures r.Suggestions? ==> 1 <= |r.items| <= 4
  {
    if completion.CallFailed? then Failed(CompletionError)
    else SuggestFromCleaned(Clean(RawReply(completion)), parse)
  }

  /** The rest of the `try`, from the cleaned reply on. */
  function SuggestFromCleaned(cleaned: string, parse: string -> Option<Parsed>): (r: Outcome)
    ensures r.Suggestions? ==> 1 <= |r.items| <= 4
  {
    match ArraySpan(cleaned)
    case None => Failed(NoJsonArray)
    case Some(text) =>
      match parse(text)
      case None => Failed(ParseError)
      case Some(OtherJson) => Failed(InvalidArray)
      case Some(JsonArray(elements)) =>
        if elements == [] then Failed(InvalidArray)
        else Suggestions(elements[..Min(|elements|, 4)])
  }

  /** The HTTP reply: the status and the `suggestions` field, `null` being `None`. */
  datatype Reply = Reply(status: nat, suggestions: Option<seq<string>>, logged: bool)

  /** `GET`: a success answers 200 with the suggestions; a failure logs and answers 500 with
      `null`. */
  function Get(completion: Completion, parse: string -> Option<Parsed>): (r: Reply)
    ensures r.status == 200 || r.status == 500
    ensures r.status == 200 <==> r.suggestions.Some?
    ensures r.logged <==> r.status == 500
    ensures r.suggestions.Some? ==> 1 <= |r.suggestions.value| <= 4
  {
    match Suggest(completion, parse)
    case Suggestions(items) => Reply(200, Some(items), false)
    case Failed(_) => Reply(500, None, true)
  }

  /** The route succeeds exactly when the call returns, the cleaned reply holds a bracket
      span, and that span parses as a non-empty array; the suggestions are then that
      array's first four elements, or all of them when there are fewer. */
  lemma GetSucceedsIff(completion: Completion, parse: string -> Option<Parsed>)
    ensures var r := Get(completion, parse);
      r.status == 200 <==>
        completion.Completed? && ArraySpan(Clean(RawReply(completion))).Some? &&
        var p := parse(ArraySpan(Clean(RawReply(completion))).value);
        p.Some? && p.value.JsonArray? && p.value.elements != []
    ensures var r := Get(completion, parse);
      r.status == 200 ==>
        var e := parse(ArraySpan(Clean(RawReply(completion))).value).value.elements;
        r.suggestions.value <= e && (|e| >= 4 ==> |r.suggestions.value| == 4) &&
        (|e| < 4 ==> r.suggestions.value == e)
  {
  }

  /** The reply depends on the model's text only through its cleaned form. */
  lemma SameCleanSameReply(a: string, b: string, parse: string -> Option<Parsed>)
    requires Clean(a) == Clean(b)
    ensures Get(Completed(Some(a)), parse) == Get(Completed(Some(b)), parse)
  {
    SuggestThroughClean(a, parse);
    SuggestThroughClean(b, parse);
  }

  lemma SuggestThroughClean(raw: string, parse: string -> Option<Parsed>)
    ensures Suggest(Completed(Some(raw)), parse) == SuggestFromCleaned(Clean(raw), parse)
  {
    assert RawReply(Completed(Some(raw))) == raw;
  }

  /** A reply wrapped in a fenced block, as models often send despite the system prompt,
      cleans to what the bare reply does, so the route answers the same for both. */
  lemma FencedReplyAsPlain(tag: string, body: string)
    requires forall k :: 0 <= k < |tag| ==> IsLetter(tag[k])
    requires forall k :: 0 <= k < |body| ==> body[k] != '`'
    ensures Clean("```" + tag + "\n" + body + "```") == Clean(body)
  {
    StripFenced(tag, body);
    assert NoTriple(body);
    StripKeepsFenceFree(body);
  }

  lemma StripFenced(tag: string, body: string)
    requires forall k :: 0 <= k < |tag| ==> IsLetter(tag[k])
    requires forall k :: 0 <= k < |body| ==> body[k] != '`'
    ensures StripFences("```" + tag + "\n" + body + "```") == body
  {
    var s := "```" + tag + "\n" + body + "```";
    var t := body + "```";
    assert s == "```" + tag + "\n" + t;
    FenceLengthOf(s, tag, t);
    assert s[FenceLength(s)..] == t;
    StripBodyThenFence(body);
  }

  lemma FenceLengthOf(s: string, tag: string, t: string)
    requires forall k :: 0 <= k < |tag| ==> IsLetter(tag[k])
    requires s == "```" + tag + "\n" + t
    ensures TripleAt(s, 0) && FenceLength(s) == 4 + |tag|
  {
    LetterRunOf(s, 3, |tag|);
  }

  lemma {:induction false} LetterRunOf(s: string, i: nat, n: nat)
    requires i + n < |s| && !IsLetter(s[i + n])
    requires forall k :: i <= k < i + n ==> IsLetter(s[k])
    ensures LetterRun(s, i) == n
    decreases n
  {
    if n > 0 {
      LetterRunOf(s, i + 1, n - 1);
    }
  }

  /** A closing fence after text with no backtick is dropped, and the text is kept. */
  lemma {:induction false} StripBodyThenFence(body: string)
    requires forall k :: 0 <= k < |body| ==> body[k] != '`'
    ensures StripFences(body + "```") == body
    decreases |body|
  {
    if body == [] {
      assert body + "```" == "```";
      assert FenceLength("```") == 3;
    } else {
      assert (body + "```")[1..] == body[1..] + "```";
      StripBodyThenFence(body[1..]);
    }
  }
}
