/**
 * The client side of the chat stream, shared by both chat pages
 * (app/ai-chat/page.tsx and app/chat/page.tsx hold identical copies of it):
 * the decoded response body is cut into frames at every blank line, a frame
 * is kept only when it carries a `data:` payload, the payload's JSON gives a
 * text delta by a fixed priority, and the delta is appended to the assistant
 * message whose id the request names.
 */
module StreamProtocol {
  import opened Wrappers
  import opened Text
  import opened ChatTypes

  /** A message of the chat pages; an absent `isStreaming` is `false`. */
  datatype ChatMessage = ChatMessage(id: string, role: Role, content: string, isStreaming: bool)

  /** One `{ role, content }` entry of the body POSTed to /api/chat. */
  datatype ApiMessage = ApiMessage(role: Role, content: string)

  /** What a page hands to the stream consumer: the new prompt, the history sent
      before it, and the id of the assistant message the deltas go to. */
  datatype Request = Request(userContent: string, history: seq<ChatMessage>, assistantId: string)

  /** `history.map(m => ({ role, content }))`. */
  function ToApi(history: seq<ChatMessage>): (r: seq<ApiMessage>)
    ensures |r| == |history|
    ensures forall i :: 0 <= i < |history| ==> r[i] == ApiMessage(history[i].role, history[i].content)
  {
    seq(|history|, i requires 0 <= i < |history| => ApiMessage(history[i].role, history[i].content))
  }

  /** The `messages` array of the request body: the history, then the prompt as a user message. */
  function RequestBody(req: Request): (body: seq<ApiMessage>)
    ensures |body| == |req.history| + 1
    ensures body[..|req.history|] == ToApi(req.history)
    ensures body[|req.history|] == ApiMessage(User, req.userContent)
  {
    ToApi(req.history) + [ApiMessage(User, req.userContent)]
  }

  // ---------------------------------------------------------------------
  // Framing: `buffer.split("\n\n")` and `segments.pop()`
  // ---------------------------------------------------------------------

  /** The complete segments of a buffer and the unfinished tail kept for the next read. */
  datatype Frames = Frames(segments: seq<string>, tail: string)

  /** A blank-line separator `"\n\n"` starts at index `i` of `s`. */
  predicate SeparatorAt(s: string, i: int) {
    0 <= i && i + 1 < |s| && s[i] == '\n' && s[i + 1] == '\n'
  }

  ghost predicate SeparatorFree(s: string) {
    forall i :: !SeparatorAt(s, i)
  }

  /** Puts one character in front of the first piece of a split. */
  function PushChar(c: char, f: Frames): Frames {
    if f.segments == [] then Frames([], [c] + f.tail)
    else Frames([[c] + f.segments[0]] + f.segments[1..], f.tail)
  }

  /** `s.split("\n\n")` scans left to right and cuts at each separator it meets;
      the last piece is the tail. */
  function Split(s: string): Frames
    decreases |s|
  {
    if |s| < 2 then Frames([], s)
    else if SeparatorAt(s, 0) then
      var rest := Split(s[2..]);
      Frames([""] + rest.segments, rest.tail)
    else PushChar(s[0], Split(s[1..]))
  }

  /** The inverse of `Split`: each segment followed by a separator, then the tail. */
  function Join(segments: seq<string>, tail: string): string
    decreases |segments|
  {
    if segments == [] then tail else segments[0] + "\n\n" + Join(segments[1..], tail)
  }

  /** Splitting loses no text: joining the pieces gives the buffer back. */
  lemma {:induction false} SplitJoin(s: string)
    ensures Join(Split(s).segments, Split(s).tail) == s
    decreases |s|
  {
    if |s| < 2 {
    } else if SeparatorAt(s, 0) {
      SplitJoin(s[2..]);
      assert s == "\n\n" + s[2..];
    } else {
      var r := Split(s[1..]);
      SplitJoin(s[1..]);
      if r.segments != [] {
        assert r.segments == [r.segments[0]] + r.segments[1..];
        var f := PushChar(s[0], r);
        assert f.segments[1..] == r.segments[1..];
        assert s == [s[0]] + s[1..];
      } else {
        assert s == [s[0]] + s[1..];
      }
    }
  }

  /** The first character of a split piece is the buffer's first character. */
  lemma SplitStartsLikeBuffer(s: string)
    requires s != []
    ensures Split(s).segments != [] && Split(s).segments[0] != [] ==> Split(s).segments[0][0] == s[0]
    ensures Split(s).segments == [] ==> Split(s).tail == s
  {
    SplitJoin(s);
  }

  /** The pieces `Split` can return: separator-free, and no complete segment ends in a
      line feed. */
  ghost predicate WellFormedFrames(segments: seq<string>, tail: string) {
    SeparatorFree(tail) &&
    forall k :: 0 <= k < |segments| ==>
      SeparatorFree(segments[k]) && (segments[k] == [] || segments[k][|segments[k]| - 1] != '\n')
  }

  /** No piece of a split holds a separator, and no complete segment ends in a line feed
      (its line feed would have started an earlier separator). */
  lemma {:induction false} SplitPiecesAreSeparatorFree(s: string)
    ensures WellFormedFrames(Split(s).segments, Split(s).tail)
    decreases |s|
  {
    if |s| < 2 {
      forall i ensures !SeparatorAt(s, i) {}
    } else if SeparatorAt(s, 0) {
      SplitPiecesAreSeparatorFree(s[2..]);
      SeparatorStep(Split(s[2..]));
    } else {
      SplitPiecesAreSeparatorFree(s[1..]);
      CharStep(s);
    }
  }

  /** An empty segment in front keeps the pieces well formed. */
  lemma SeparatorStep(rest: Frames)
    requires WellFormedFrames(rest.segments, rest.tail)
    ensures WellFormedFrames([""] + rest.segments, rest.tail)
  {
    var segs := [""] + rest.segments;
    forall k | 1 <= k < |segs| ensures SeparatorFree(segs[k]) {
      assert segs[k] == rest.segments[k - 1];
    }
    forall i ensures !SeparatorAt(segs[0], i) {}
  }

  /** A character that does not start a separator, put in front of the first piece, keeps
      the pieces well formed. */
  lemma CharStep(s: string)
    requires |s| >= 2 && !SeparatorAt(s, 0)
    requires WellFormedFrames(Split(s[1..]).segments, Split(s[1..]).tail)
    ensures WellFormedFrames(PushChar(s[0], Split(s[1..])).segments, PushChar(s[0], Split(s[1..])).tail)
  {
    var r := Split(s[1..]);
    var c := s[0];
    if r.segments == [] {
      var t := [c] + r.tail;
      forall i ensures !SeparatorAt(t, i) {
        if i >= 1 { assert !SeparatorAt(r.tail, i - 1); }
      }
    } else {
      var first := [c] + r.segments[0];
      var segs := [first] + r.segments[1..];
      assert SeparatorFree(r.segments[0]);
      forall i ensures !SeparatorAt(first, i) {
        if i >= 1 { assert !SeparatorAt(r.segments[0], i - 1); }
      }
      if r.segments[0] == [] {
        // s[1..] starts with a separator, so a line feed at s[0] would start one at 0
        SplitJoin(s[1..]);
        assert Join(r.segments, r.tail) == "\n\n" + Join(r.segments[1..], r.tail);
        assert s[1] == '\n';
      }
      forall k | 1 <= k < |segs| ensures SeparatorFree(segs[k]) {
        assert segs[k] == r.segments[k];
      }
    }
  }

  /** A separator-free buffer has no complete segment: it is all tail. */
  lemma {:induction false} SplitUnterminated(s: string)
    requires SeparatorFree(s)
    ensures Split(s) == Frames([], s)
    decreases |s|
  {
    if |s| >= 2 {
      assert !SeparatorAt(s, 0);
      forall i ensures !SeparatorAt(s[1..], i) {
        assert !SeparatorAt(s, i + 1);
      }
      SplitUnterminated(s[1..]);
      assert s == [s[0]] + s[1..];
    }
  }

  /** A whole frame followed by its blank line is exactly one segment. */
  lemma {:induction false} SplitTerminated(s: string)
    requires SeparatorFree(s) && (s == [] || s[|s| - 1] != '\n')
    ensures Split(s + "\n\n") == Frames([s], "")
    decreases |s|
  {
    var b := s + "\n\n";
    if s == [] {
      assert b[2..] == "";
    } else {
      assert !SeparatorAt(b, 0) by {
        if |s| == 1 { assert b[0] == s[0]; } else { assert !SeparatorAt(s, 0); }
      }
      forall i ensures !SeparatorAt(s[1..], i) {
        assert !SeparatorAt(s, i + 1);
      }
      SplitTerminated(s[1..]);
      assert b[1..] == s[1..] + "\n\n";
      assert s == [s[0]] + s[1..];
    }
  }

  /** `Split` inverts `Join` on well-formed pieces: in particular a stream that ends
      without a blank line leaves its last frame in the tail, never applied. */
  lemma {:induction false} JoinSplit(segments: seq<string>, tail: string)
    requires WellFormedFrames(segments, tail)
    ensures Split(Join(segments, tail)) == Frames(segments, tail)
    decreases |segments|
  {
    if segments == [] {
      SplitUnterminated(tail);
    } else {
      var s := segments[0];
      var rest := Join(segments[1..], tail);
      assert WellFormedFrames(segments[1..], tail) by {
        forall k | 0 <= k < |segments[1..]|
          ensures SeparatorFree(segments[1..][k])
        {
          assert segments[1..][k] == segments[k + 1];
        }
      }
      JoinSplit(segments[1..], tail);
      SplitTerminated(s);
      SplitAppend(s + "\n\n", rest);
      assert Join(segments, tail) == (s + "\n\n") + rest;
      assert "" + rest == rest;
      assert [s] + segments[1..] == segments;
    }
  }

  /** Splitting `x + y` equals splitting `x` and then splitting its tail followed by `y`. */
  ghost predicate SplitsAcross(x: string, y: string) {
    var a := Split(x);
    var b := Split(a.tail + y);
    Split(x + y) == Frames(a.segments + b.segments, b.tail)
  }

  /** Cutting a buffer anywhere and splitting the second part after the first part's
      tail gives the same segments as splitting the whole buffer at once. */
  lemma {:induction false} SplitAppend(x: string, y: string)
    ensures SplitsAcross(x, y)
    decreases |x|
  {
    if |x| < 2 {
      assert Split(x).segments + Split(Split(x).tail + y).segments == Split(x + y).segments;
    } else if SeparatorAt(x, 0) {
      SplitAppend(x[2..], y);
      SplitAppendAfterSeparator(x, y);
    } else {
      SplitAppend(x[1..], y);
      SplitAppendAfterChar(x, y);
    }
  }

  lemma SplitAppendAfterSeparator(x: string, y: string)
    requires |x| >= 2 && SeparatorAt(x, 0) && SplitsAcross(x[2..], y)
    ensures SplitsAcross(x, y)
  {
    assert SeparatorAt(x + y, 0);
    assert (x + y)[2..] == x[2..] + y;
    var r := Split(x[2..]);
    var b := Split(r.tail + y);
    assert [""] + (r.segments + b.segments) == ([""] + r.segments) + b.segments;
  }

  lemma SplitAppendAfterChar(x: string, y: string)
    requires |x| >= 2 && !SeparatorAt(x, 0) && SplitsAcross(x[1..], y)
    ensures SplitsAcross(x, y)
  {
    assert !SeparatorAt(x + y, 0);
    assert (x + y)[1..] == x[1..] + y;
    assert Split(x + y) == PushChar(x[0], Split(x[1..] + y));
    SplitStartsLikeBuffer(x[1..]);
    if Split(x[1..]).segments == [] {
      CharBeforeTail(x, y);
    } else {
      CharBeforeSegment(x, y);
    }
  }

  lemma CharBeforeTail(x: string, y: string)
    requires |x| >= 2 && !SeparatorAt(x, 0)
    requires Split(x[1..]) == Frames([], x[1..])
    requires Split(x + y) == PushChar(x[0], Split(x[1..] + y))
    ensures SplitsAcross(x, y)
  {
    var t := [x[0]] + x[1..];
    assert t == x;
    assert Split(x) == Frames([], x);
    assert x + y == [x[0]] + (x[1..] + y);
    assert Split(x).segments + Split(x + y).segments == Split(x + y).segments;
  }

  lemma CharBeforeSegment(x: string, y: string)
    requires |x| >= 2 && !SeparatorAt(x, 0) && SplitsAcross(x[1..], y)
    requires Split(x[1..]).segments != []
    requires Split(x + y) == PushChar(x[0], Split(x[1..] + y))
    ensures SplitsAcross(x, y)
  {
    var r := Split(x[1..]);
    var b := Split(r.tail + y);
    assert Split(x) == PushChar(x[0], r);
    PushCharAcross(x[0], r, b);
  }

  /** Putting a character in front of a split that has segments only touches its first segment. */
  lemma PushCharAcross(c: char, r: Frames, b: Frames)
    requires r.segments != []
    ensures PushChar(c, Frames(r.segments + b.segments, b.tail))
         == Frames(PushChar(c, r).segments + b.segments, b.tail)
  {
    var A, B := r.segments, b.segments;
    assert (A + B)[0] == A[0];
    assert (A + B)[1..] == A[1..] + B;
  }

  // ---------------------------------------------------------------------
  // Segment filter and delta choice
  // ---------------------------------------------------------------------

  const DataPrefix: string := "data:"
  const DoneToken: string := "[DONE]"

  /** The payload of a segment, or `None` where the loop `continue`s: the trimmed
      segment does not start with `data:`, or what is left after removing the first
      `data:` and trimming is empty or `[DONE]`. */
  function FrameData(segment: string): Option<string> {
    if !StartsWith(Trim(segment), DataPrefix) then None
    else
      var data := Trim(ReplaceFirst(segment, DataPrefix, ""));
      if data == "" || data == DoneToken then None else Some(data)
  }

  /** `replace("data:", "")` on the untrimmed segment removes the `data:` that starts the
      trimmed segment, so the payload is the trimmed text that follows it (any later
      `data:` is kept). */
  lemma FrameDataIsTextAfterPrefix(segment: string)
    ensures FrameData(segment).Some? <==>
      StartsWith(TrimStart(segment), DataPrefix) &&
      Trim(TrimStart(segment)[5..]) != "" && Trim(TrimStart(segment)[5..]) != DoneToken
    ensures FrameData(segment).Some? ==> FrameData(segment).value == Trim(TrimStart(segment)[5..])
  {
    var t := TrimStart(segment);
    TrimStartsWith(segment, DataPrefix);
    if StartsWith(t, DataPrefix) {
      PayloadAfterPrefix(segment);
      var data := Trim(ReplaceFirst(segment, DataPrefix, ""));
      assert data == Trim(t[5..]);
      assert FrameData(segment) == if data == "" || data == DoneToken then None else Some(data);
    } else {
      assert FrameData(segment) == None;
    }
  }

  /** Removing the first `data:` from a segment whose trimmed text starts with it leaves the
      leading white space and the text after that `data:`, which trims like the latter. */
  lemma PayloadAfterPrefix(segment: string)
    requires StartsWith(TrimStart(segment), DataPrefix)
    ensures Trim(ReplaceFirst(segment, DataPrefix, "")) == Trim(TrimStart(segment)[5..])
  {
    var t := TrimStart(segment);
    var w := segment[..|segment| - |t|];
    assert segment == w + t;
    IndexAfterSpaces(w, t, DataPrefix);
    assert ReplaceFirst(segment, DataPrefix, "") == w + t[5..];
    TrimStartAfterSpaces(w, t[5..]);
  }

  /** `parsed.delta`: an object with an optional `content`. */
  datatype Delta = Delta(content: Option<string>)

  /** One element of `parsed.choices`. */
  datatype Choice = Choice(delta: Option<Delta>)

  /** The fields of a parsed payload the loop reads; `None` is null or undefined. */
  datatype Payload = Payload(content: Option<string>, delta: Option<Delta>, choices: Option<seq<Option<Choice>>>)

  /** The value `JSON.parse` returns: `null`, on which reading `.content` throws, or
      any other value, seen through the fields the loop reads (all `None` for a number,
      a string, an array without those fields, ...). */
  datatype Json = JsonNull | JsonValue(fields: Payload)

  /** `parsed.delta?.content`. */
  function DeltaContent(p: Payload): Option<string> {
    if p.delta.Some? then p.delta.value.content else None
  }

  /** `parsed.choices?.[0]?.delta?.content`. */
  function ChoiceContent(p: Payload): Option<string> {
    if p.choices.Some? && |p.choices.value| > 0 && p.choices.value[0].Some?
       && p.choices.value[0].value.delta.Some?
    then p.choices.value[0].value.delta.value.content
    else None
  }

  /** `parsed.content ?? parsed.delta?.content ?? parsed.choices?.[0]?.delta?.content ?? ""`:
      the first of the three that is present wins, even when it is `""`. */
  function DeltaOf(p: Payload): (d: string)
    ensures p.content.Some? ==> d == p.content.value
    ensures p.content.None? && DeltaContent(p).Some? ==> d == DeltaContent(p).value
    ensures p.content.None? && DeltaContent(p).None? && ChoiceContent(p).Some? ==> d == ChoiceContent(p).value
    ensures p.content.None? && DeltaContent(p).None? && ChoiceContent(p).None? ==> d == ""
  {
    p.content.GetOr(DeltaContent(p).GetOr(ChoiceContent(p).GetOr("")))
  }

  // ---------------------------------------------------------------------
  // Transcript updaters
  // ---------------------------------------------------------------------

  /** `prev.map(msg => msg.id === id ? { ...msg, content: msg.content + delta } : msg)`. */
  function AppendDelta(messages: seq<ChatMessage>, id: string, delta: string): (r: seq<ChatMessage>)
    ensures |r| == |messages|
    ensures forall i :: 0 <= i < |messages| && messages[i].id != id ==> r[i] == messages[i]
    ensures forall i :: 0 <= i < |messages| && messages[i].id == id ==>
      r[i] == messages[i].(content := messages[i].content + delta)
  {
    seq(|messages|, i requires 0 <= i < |messages| =>
      if messages[i].id == id then messages[i].(content := messages[i].content + delta) else messages[i])
  }

  /** `prev.map(msg => msg.id === id ? { ...msg, isStreaming: false } : msg)`, the `finally` updater. */
  function FinishStreaming(messages: seq<ChatMessage>, id: string): (r: seq<ChatMessage>)
    ensures |r| == |messages|
    ensures forall i :: 0 <= i < |messages| && messages[i].id != id ==> r[i] == messages[i]
    ensures forall i :: 0 <= i < |messages| && messages[i].id == id ==>
      r[i] == messages[i].(isStreaming := false)
  {
    seq(|messages|, i requires 0 <= i < |messages| =>
      if messages[i].id == id then messages[i].(isStreaming := false) else messages[i])
  }

  /** With unique ids, a delta changes exactly the one message that carries the id. */
  lemma AppendDeltaTouchesOneMessage(messages: seq<ChatMessage>, id: string, delta: string, k: nat)
    requires k < |messages| && messages[k].id == id
    requires forall i, j :: 0 <= i < j < |messages| ==> messages[i].id != messages[j].id
    ensures var r := AppendDelta(messages, id, delta);
      r[k].content == messages[k].content + delta &&
      r[..k] == messages[..k] && r[k + 1..] == messages[k + 1..]
  {
    var r := AppendDelta(messages, id, delta);
    assert r[..k] == messages[..k];
    assert r[k + 1..] == messages[k + 1..];
  }

  // ---------------------------------------------------------------------
  // The read loop
  // ---------------------------------------------------------------------

  /** `console.error` calls: a payload that failed to parse, a failed request, or a failed
      clipboard write. */
  datatype LogEntry = ParseError(data: string) | RequestFailed | CopyFailed

  /** The transcript and the log as the loop leaves them. */
  datatype Outcome = Outcome(messages: seq<ChatMessage>, log: seq<LogEntry>)

  /** One pass of the inner `for` loop over one segment. */
  function ApplySegment(o: Outcome, id: string, segment: string, parse: string -> Option<Json>): Outcome {
    match FrameData(segment)
    case None => o
    case Some(data) => ApplyPayload(o, id, data, parse(data))
  }

  /** The `try`/`catch` around `JSON.parse(data)`: a parsed value other than `null` adds
      its delta when that is non-empty; a parse failure, or `null` (reading `.content` of
      it throws), logs the payload. */
  function ApplyPayload(o: Outcome, id: string, data: string, parsed: Option<Json>): Outcome {
    if parsed.Some? && parsed.value.JsonValue? then
      var delta := DeltaOf(parsed.value.fields);
      if delta == "" then o else o.(messages := AppendDelta(o.messages, id, delta))
    else o.(log := o.log + [ParseError(data)])
  }

  /** The segments applied in order. */
  function ApplySegments(o: Outcome, id: string, segments: seq<string>, parse: string -> Option<Json>): Outcome
    decreases |segments|
  {
    if segments == [] then o
    else ApplySegment(ApplySegments(o, id, segments[..|segments| - 1], parse), id, segments[|segments| - 1], parse)
  }

  /** One more segment is one more `ApplySegment`. */
  lemma ApplySegmentsStep(o: Outcome, id: string, segments: seq<string>, j: nat, parse: string -> Option<Json>)
    requires j < |segments|
    ensures ApplySegments(o, id, segments[..j + 1], parse)
         == ApplySegment(ApplySegments(o, id, segments[..j], parse), id, segments[j], parse)
  {
    assert segments[..j + 1][..j] == segments[..j];
  }

  lemma {:induction false} ApplySegmentsAppend(o: Outcome, id: string, a: seq<string>, b: seq<string>, parse: string -> Option<Json>)
    ensures ApplySegments(o, id, a + b, parse) == ApplySegments(ApplySegments(o, id, a, parse), id, b, parse)
    decreases |b|
  {
    if b == [] {
      assert a + b == a;
    } else {
      assert (a + b)[..|a + b| - 1] == a + b[..|b| - 1];
      ApplySegmentsAppend(o, id, a, b[..|b| - 1], parse);
    }
  }

  /** The text a segment contributes to the assistant message. */
  function SegmentText(segment: string, parse: string -> Option<Json>): string {
    match FrameData(segment)
    case None => ""
    case Some(data) =>
      var parsed := parse(data);
      if parsed.Some? && parsed.value.JsonValue? then DeltaOf(parsed.value.fields) else ""
  }

  /** All the text the segments contribute, in order. */
  function StreamedText(segments: seq<string>, parse: string -> Option<Json>): string
    decreases |segments|
  {
    if segments == [] then ""
    else StreamedText(segments[..|segments| - 1], parse) + SegmentText(segments[|segments| - 1], parse)
  }

  /** What one segment does to the transcript: it appends the segment's text to the
      message carrying the id, or nothing when that text is empty. */
  lemma ApplySegmentMessages(o: Outcome, id: string, segment: string, parse: string -> Option<Json>)
    ensures ApplySegment(o, id, segment, parse).messages
         == if SegmentText(segment, parse) == "" then o.messages else AppendDelta(o.messages, id, SegmentText(segment, parse))
  {
  }

  /** The segments leave the transcript's length and every other message alone, and the
      message carrying the id ends with its old content followed by the streamed text. */
  lemma ApplySegmentsContent(o: Outcome, id: string, segments: seq<string>, parse: string -> Option<Json>)
    ensures var r := ApplySegments(o, id, segments, parse).messages;
      |r| == |o.messages| &&
      (forall i :: 0 <= i < |r| && o.messages[i].id != id ==> r[i] == o.messages[i]) &&
      (forall i :: 0 <= i < |r| && o.messages[i].id == id ==>
        r[i] == o.messages[i].(content := o.messages[i].content + StreamedText(segments, parse)))
  {
    ApplySegmentsLength(o, id, segments, parse);
    var r := ApplySegments(o, id, segments, parse).messages;
    forall i | 0 <= i < |r|
      ensures r[i] == Streamed(o.messages[i], id, StreamedText(segments, parse))
    {
      ApplySegmentsAt(o, id, segments, parse, i);
    }
  }

  lemma {:induction false} ApplySegmentsLength(o: Outcome, id: string, segments: seq<string>, parse: string -> Option<Json>)
    ensures |ApplySegments(o, id, segments, parse).messages| == |o.messages|
    decreases |segments|
  {
    if segments != [] {
      var init := segments[..|segments| - 1];
      ApplySegmentsLength(o, id, init, parse);
      ApplySegmentMessages(ApplySegments(o, id, init, parse), id, segments[|segments| - 1], parse);
    }
  }

  /** A message once `text` is appended to it when it carries the id. */
  function Streamed(message: ChatMessage, id: string, text: string): ChatMessage {
    if message.id == id then message.(content := message.content + text) else message
  }

  /** `ApplySegmentsContent` for one message. */
  lemma {:induction false} ApplySegmentsAt(o: Outcome, id: string, segments: seq<string>, parse: string -> Option<Json>, i: nat)
    requires i < |o.messages|
    ensures var r := ApplySegments(o, id, segments, parse).messages;
      |r| == |o.messages| && r[i] == Streamed(o.messages[i], id, StreamedText(segments, parse))
    decreases |segments|
  {
    if segments == [] {
      assert o.messages[i].content + "" == o.messages[i].content;
    } else {
      var init := segments[..|segments| - 1];
      var last := segments[|segments| - 1];
      ApplySegmentsAt(o, id, init, parse, i);
      var m := ApplySegments(o, id, init, parse);
      assert ApplySegments(o, id, segments, parse) == ApplySegment(m, id, last, parse);
      assert StreamedText(segments, parse) == StreamedText(init, parse) + SegmentText(last, parse);
      ApplySegmentMessages(m, id, last, parse);
      AppendedAt(m.messages, id, SegmentText(last, parse), i, o.messages[i], StreamedText(init, parse));
    }
  }

  /** A possibly empty delta appends itself to what a message has streamed so far. */
  lemma AppendedAt(messages: seq<ChatMessage>, id: string, t: string, i: nat, original: ChatMessage, before: string)
    requires i < |messages| && messages[i] == Streamed(original, id, before)
    ensures var r := if t == "" then messages else AppendDelta(messages, id, t);
      |r| == |messages| && r[i] == Streamed(original, id, before + t)
  {
    AppendAt(messages, id, t, i);
    if original.id == id {
      assert original.content + before + t == original.content + (before + t);
    } else if t == "" {
      assert before + t == before;
    }
  }

  /** A possibly empty delta, seen from one message. */
  lemma AppendAt(messages: seq<ChatMessage>, id: string, t: string, i: nat)
    requires i < |messages|
    ensures var r := if t == "" then messages else AppendDelta(messages, id, t);
      |r| == |messages| &&
      r[i] == if messages[i].id == id then messages[i].(content := messages[i].content + t) else messages[i]
  {
    if t == "" {
      assert messages[i].content + t == messages[i].content;
    }
  }

  /** The decoded chunks read so far, concatenated. */
  function Concat(chunks: seq<string>): string
    decreases |chunks|
  {
    if chunks == [] then "" else Concat(chunks[..|chunks| - 1]) + chunks[|chunks| - 1]
  }

  /** How the reads of a request end: `reader.read()` reporting `done`, or rejecting. */
  datatype Fault = AbortError | OtherError

  /** What `fetch` gives the loop: a rejection, a response with no body, or a body
      delivering `chunks` and then ending normally (`None`) or with a fault. */
  datatype Response = Rejected(fault: Fault) | MissingBody | Body(chunks: seq<string>, failure: Option<Fault>)

  /** What `fetch` settles with: a request aborted before its response arrives rejects with
      an `AbortError`, whatever the server would have sent. */
  function Delivered(abortedEarly: bool, response: Response): (r: Response)
    ensures abortedEarly ==> r == Rejected(AbortError)
    ensures !abortedEarly ==> r == response
  {
    if abortedEarly then Rejected(AbortError) else response
  }

  /** The outer `catch`: everything but an `AbortError` is logged. */
  function FailureLog(failure: Option<Fault>): seq<LogEntry> {
    if failure == Some(OtherError) then [RequestFailed] else []
  }

  /** What the `try`/`catch` of the stream consumer does to the transcript and the log. */
  function StreamResult(messages: seq<ChatMessage>, id: string, response: Response, parse: string -> Option<Json>): Outcome {
    match response
    case Rejected(f) => Outcome(messages, FailureLog(Some(f)))
    case MissingBody => Outcome(messages, [RequestFailed])
    case Body(chunks, failure) =>
      var o := ApplySegments(Outcome(messages, []), id, Split(Concat(chunks)).segments, parse);
      o.(log := o.log + FailureLog(failure))
  }

  /** The text a response streams into the assistant message. */
  function ResponseText(response: Response, parse: string -> Option<Json>): string {
    if response.Body? then StreamedText(Split(Concat(response.chunks)).segments, parse) else ""
  }

  /** A request, whatever way it ends, followed by the `finally` updater: the transcript keeps
      its length and every other message, and the message carrying the id holds its old
      content followed by the streamed text and is no longer streaming. */
  lemma StreamResultContent(messages: seq<ChatMessage>, id: string, response: Response, parse: string -> Option<Json>)
    ensures var r := FinishStreaming(StreamResult(messages, id, response, parse).messages, id);
      |r| == |messages| &&
      (forall i :: 0 <= i < |r| && messages[i].id != id ==> r[i] == messages[i]) &&
      (forall i :: 0 <= i < |r| && messages[i].id == id ==>
        r[i] == messages[i].(content := messages[i].content + ResponseText(response, parse), isStreaming := false))
  {
    if response.Body? {
      ApplySegmentsContent(Outcome(messages, []), id, Split(Concat(response.chunks)).segments, parse);
    }
  }

  /** A whole exchange: a user message and an empty streaming assistant message appended to
      a transcript in which the assistant id is new end, whatever the response, as that
      user message and an assistant message holding the streamed text, no longer streaming. */
  lemma ExchangeOutcome(messages: seq<ChatMessage>, user: ChatMessage, id: string, response: Response, parse: string -> Option<Json>)
    requires user.id != id
    requires forall i :: 0 <= i < |messages| ==> messages[i].id != id
    ensures var start := messages + [user, ChatMessage(id, Assistant, "", true)];
      FinishStreaming(StreamResult(start, id, response, parse).messages, id)
        == messages + [user, ChatMessage(id, Assistant, ResponseText(response, parse), false)]
  {
    var start := messages + [user, ChatMessage(id, Assistant, "", true)];
    StreamResultContent(start, id, response, parse);
    var r := FinishStreaming(StreamResult(start, id, response, parse).messages, id);
    var wanted := messages + [user, ChatMessage(id, Assistant, ResponseText(response, parse), false)];
    forall i | 0 <= i < |r| ensures r[i] == wanted[i] {
      if i < |messages| {
        assert start[i] == messages[i];
      } else if i == |messages| {
        assert start[i] == user;
      }
    }
  }

  /** An abort, before the response arrives or during a read, is never logged, and it keeps
      what was streamed before it. */
  lemma AbortIsNotLogged(messages: seq<ChatMessage>, id: string, chunks: seq<string>, parse: string -> Option<Json>)
    ensures StreamResult(messages, id, Rejected(AbortError), parse) == Outcome(messages, [])
    ensures StreamResult(messages, id, Body(chunks, Some(AbortError)), parse)
         == StreamResult(messages, id, Body(chunks, None), parse)
  {
  }

  /** The `while (true)` read loop: append each chunk to `buffer`, split it, keep the
      unfinished tail, and walk the complete segments in order.  What it applies is the
      split of everything read, wherever the reads were cut, and the tail left at `done`
      is never applied. */
  method ReadLoop(messages: seq<ChatMessage>, assistantId: string, chunks: seq<string>, parse: string -> Option<Json>)
    returns (out: Outcome, buffer: string)
    ensures out == ApplySegments(Outcome(messages, []), assistantId, Split(Concat(chunks)).segments, parse)
    ensures buffer == Split(Concat(chunks)).tail
  {
    out := Outcome(messages, []);
    buffer := "";
    var k := 0;
    while k < |chunks|
      invariant k <= |chunks|
      invariant buffer == Split(Concat(chunks[..k])).tail
      invariant out == ApplySegments(Outcome(messages, []), assistantId, Split(Concat(chunks[..k])).segments, parse)
    {
      ghost var before := Concat(chunks[..k]);
      buffer := buffer + chunks[k];
      var frames := Split(buffer);
      buffer := frames.tail;
      var segments := frames.segments;
      ghost var start := out;
      for j := 0 to |segments|
        invariant out == ApplySegments(start, assistantId, segments[..j], parse)
      {
        ApplySegmentsStep(start, assistantId, segments, j, parse);
        var segment := segments[j];
        if !StartsWith(Trim(segment), DataPrefix) {
          assert FrameData(segment) == None;
          continue;
        }
        var data := Trim(ReplaceFirst(segment, DataPrefix, ""));
        if data == "" || data == DoneToken {
          assert FrameData(segment) == None;
          continue;
        }
        assert FrameData(segment) == Some(data);
        var parsed := parse(data);
        if parsed.Some? && parsed.value.JsonValue? {
          var delta := DeltaOf(parsed.value.fields);
          if delta != "" {
            out := out.(messages := AppendDelta(out.messages, assistantId, delta));
          }
        } else {
          out := out.(log := out.log + [ParseError(data)]);
        }
      }
      assert segments[..|segments|] == segments;
      SplitAppend(before, chunks[k]);
      ApplySegmentsAppend(Outcome(messages, []), assistantId, Split(before).segments, segments, parse);
      assert chunks[..k + 1][..k] == chunks[..k];
      k := k + 1;
    }
    assert chunks[..|chunks|] == chunks;
  }

  /** The `try`/`catch` around the read loop, without the page's `finally`. */
  method Consume(messages: seq<ChatMessage>, assistantId: string, response: Response, parse: string -> Option<Json>)
    returns (out: Outcome)
    ensures out == StreamResult(messages, assistantId, response, parse)
  {
    match response {
      case Rejected(f) =>
        out := Outcome(messages, FailureLog(Some(f)));
      case MissingBody =>
        out := Outcome(messages, [RequestFailed]);
      case Body(chunks, failure) =>
        var buffer;
        out, buffer := ReadLoop(messages, assistantId, chunks, parse);
        out := out.(log := out.log + FailureLog(failure));
    }
  }
}
