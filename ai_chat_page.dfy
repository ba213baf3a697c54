/**
 * The Git Friend chat page (app/ai-chat/page.tsx): the transcript, the input box,
 * the streaming flag, the auto-scroll flags and the abort controller, with the
 * handlers that change them.
 *
 * Each `async` handler is cut at its first `await`: `Submit` and `Regenerate` are
 * the synchronous part, which updates the state and returns the request;
 * `StreamChat` is the rest of `streamChat`, which consumes the response and runs
 * the `finally` block.  Between the two, `Stop` may abort the controller.
 */
module AiChatPage {
  import opened Wrappers
  import opened Text
  import opened ChatTypes
  import opened StreamProtocol
  import opened PageRules

  /** `[...s].reverse()`. */
  function Reverse<T>(s: seq<T>): (r: seq<T>)
    ensures |r| == |s|
    ensures forall i :: 0 <= i < |s| ==> r[i] == s[|s| - 1 - i]
  {
    seq(|s|, i requires 0 <= i < |s| => s[|s| - 1 - i])
  }

  /** `s.findIndex(p)`, with -1 as `None`: the first index whose element satisfies `p`. */
  function FindIndex<T>(s: seq<T>, p: T -> bool): (r: Option<nat>)
    ensures r.Some? ==> r.value < |s| && p(s[r.value])
    ensures r.Some? ==> forall j :: 0 <= j < r.value ==> !p(s[j])
    ensures r.None? ==> forall j :: 0 <= j < |s| ==> !p(s[j])
    decreases |s|
  {
    if s == [] then None
    else if p(s[0]) then Some(0)
    else match FindIndex(s[1..], p)
      case None => None
      case Some(k) => Some(k + 1)
  }

  /** Message `i` is an assistant message and no assistant message follows it. */
  predicate IsLastAssistant(ms: seq<ChatMessage>, i: int) {
    0 <= i < |ms| && ms[i].role == Assistant &&
    forall j :: i < j < |ms| ==> ms[j].role != Assistant
  }

  /** `messages.length - 1 - [...messages].reverse().findIndex(m => m.role === "assistant")`. */
  function LastAssistantIndex(ms: seq<ChatMessage>): (r: Option<nat>)
    ensures r.Some? ==> IsLastAssistant(ms, r.value)
    ensures r.None? ==> forall j :: 0 <= j < |ms| ==> ms[j].role != Assistant
  {
    var rev := Reverse(ms);
    match FindIndex(rev, (m: ChatMessage) => m.role == Assistant)
    case None =>
      assert forall j :: 0 <= j < |ms| ==> ms[j] == rev[|ms| - 1 - j];
      None
    case Some(k) =>
      assert forall j :: |ms| - 1 - k < j < |ms| ==> ms[j] == rev[|ms| - 1 - j];
      Some(|ms| - 1 - k)
  }

  /** The message `handleRegenerate` restarts: the last assistant message, when there are
      at least two messages and a user message comes right before it. */
  function RegenerateIndex(ms: seq<ChatMessage>): (r: Option<nat>)
    ensures r.Some? ==> |ms| >= 2 && 1 <= r.value && IsLastAssistant(ms, r.value) && ms[r.value - 1].role == User
    ensures r.None? ==> |ms| < 2 || forall i :: IsLastAssistant(ms, i) ==> i == 0 || ms[i - 1].role != User
  {
    if |ms| < 2 then None
    else match LastAssistantIndex(ms)
      case None => None
      case Some(i) =>
        LastAssistantIsUnique(ms, i);
        if i == 0 || ms[i - 1].role != User then None else Some(i)
  }

  /** There is at most one last assistant message. */
  lemma LastAssistantIsUnique(ms: seq<ChatMessage>, i: int)
    requires IsLastAssistant(ms, i)
    ensures forall j :: IsLastAssistant(ms, j) ==> j == i
  {
  }

  /** The Regenerate action is shown on a message when it is the last message, an
      assistant message, and a user message comes right before it. */
  predicate ShowsRegenerate(ms: seq<ChatMessage>, index: int) {
    0 < index < |ms| && ms[index].role == Assistant && index == |ms| - 1 && ms[index - 1].role == User
  }

  /** Where the Regenerate action is shown, clicking it restarts exactly that message. */
  lemma ShownRegenerateRestartsIt(ms: seq<ChatMessage>, index: int)
    requires ShowsRegenerate(ms, index)
    ensures RegenerateIndex(ms) == Some(index)
  {
    assert IsLastAssistant(ms, index);
  }

  /** The request `handleSubmit` sends: its history already ends with the new user message,
      so the prompt reaches the API twice in a row. */
  lemma SubmitSendsPromptTwice(ms: seq<ChatMessage>, userId: string, prompt: string, assistantId: string)
    ensures var body := RequestBody(Request(prompt, ms + [ChatMessage(userId, User, prompt, false)], assistantId));
      |body| == |ms| + 2 && body[..|ms|] == ToApi(ms) &&
      body[|ms|] == ApiMessage(User, prompt) && body[|ms| + 1] == ApiMessage(User, prompt)
  {
    var h := ms + [ChatMessage(userId, User, prompt, false)];
    var body := RequestBody(Request(prompt, h, assistantId));
    assert body[..|h|][..|ms|] == body[..|ms|];
    assert ToApi(h)[..|ms|] == ToApi(ms);
  }

  /** The request `handleRegenerate` sends: the history `slice(0, i)` already ends with the
      user message before the restarted reply, and its content is the prompt, so that
      prompt too reaches the API twice in a row. */
  lemma RegenerateSendsPromptTwice(ms: seq<ChatMessage>)
    requires RegenerateIndex(ms).Some?
    ensures var i := RegenerateIndex(ms).value;
      var body := RequestBody(Request(ms[i - 1].content, ms[..i], ms[i].id));
      |body| == i + 1 && body[..i - 1] == ToApi(ms[..i - 1]) &&
      body[i - 1] == ApiMessage(User, ms[i - 1].content) && body[i] == ApiMessage(User, ms[i - 1].content)
  {
    var i := RegenerateIndex(ms).value;
    var body := RequestBody(Request(ms[i - 1].content, ms[..i], ms[i].id));
    assert body[..i][..i - 1] == body[..i - 1];
    assert ToApi(ms[..i])[..i - 1] == ToApi(ms[..i - 1]);
  }

  /** The evidently intended regenerate request: with the history cut before the prompt,
      `slice(0, i - 1)`, the body is the transcript up to and including the prompt, each
      message once. */
  lemma CorrectedRegenerateSendsPromptOnce(ms: seq<ChatMessage>)
    requires RegenerateIndex(ms).Some?
    ensures var i := RegenerateIndex(ms).value;
      RequestBody(Request(ms[i - 1].content, ms[..i - 1], ms[i].id)) == ToApi(ms[..i])
  {
    var i := RegenerateIndex(ms).value;
    var body := RequestBody(Request(ms[i - 1].content, ms[..i - 1], ms[i].id));
    assert ms[..i][..i - 1] == ms[..i - 1];
    assert ToApi(ms[..i])[..i - 1] == ToApi(ms[..i - 1]);
    assert body[..i - 1] == ToApi(ms[..i])[..i - 1];
  }

  const ScrollThreshold: real := 64.0

  /** The page's state.  Ids come from `Date.now()` and are parameters of the handlers. */
  class AiChat {
    var messages: seq<ChatMessage>
    var input: string
    var isStreaming: bool
    var autoScroll: bool
    var showScrollToBottom: bool
    var copiedId: Option<string>
    var suggestions: seq<string>
    var suggestionsLoading: bool
    var controller: Option<Controller>
    /** The `console.error` calls made so far. */
    var log: seq<LogEntry>

    /** The "Scroll to latest" button is shown exactly when auto-scroll is off. */
    ghost predicate Valid()
      reads this
    {
      showScrollToBottom == !autoScroll
    }

    constructor(fallbackSuggestions: seq<string>)
      ensures Valid()
      ensures messages == [] && input == "" && !isStreaming && autoScroll && copiedId == None
      ensures suggestions == fallbackSuggestions && suggestionsLoading && controller == None && log == []
    {
      messages := [];
      input := "";
      isStreaming := false;
      autoScroll := true;
      showScrollToBottom := false;
      copiedId := None;
      suggestions := fallbackSuggestions;
      suggestionsLoading := true;
      controller := None;
      log := [];
    }

    /** `onChange={setInput}` and a suggestion chip's `setInput(suggestion)`. */
    method Edit(value: string)
      modifies this
      ensures input == value
      ensures messages == old(messages) && isStreaming == old(isStreaming) && controller == old(controller)
      ensures autoScroll == old(autoScroll) && showScrollToBottom == old(showScrollToBottom)
      ensures copiedId == old(copiedId) && suggestions == old(suggestions)
      ensures suggestionsLoading == old(suggestionsLoading) && log == old(log)
    {
      input := value;
    }

    /** The end of `fetchSuggestions`: a non-empty array replaces the fallback list, anything
        else (a failed request, a missing or empty array) keeps it. */
    method SuggestionsLoaded(fetched: Option<seq<string>>)
      modifies this
      ensures suggestions == if fetched.Some? && |fetched.value| > 0 then fetched.value else old(suggestions)
      ensures !suggestionsLoading
      ensures messages == old(messages) && input == old(input) && isStreaming == old(isStreaming)
      ensures autoScroll == old(autoScroll) && showScrollToBottom == old(showScrollToBottom)
      ensures copiedId == old(copiedId) && controller == old(controller) && log == old(log)
    {
      if fetched.Some? && |fetched.value| > 0 {
        suggestions := fetched.value;
      }
      suggestionsLoading := false;
    }

    /** `handleScroll`: auto-scroll ends up on exactly when the view is within 64 pixels of
        the bottom. */
    method HandleScroll(scrollTop: real, clientHeight: real, scrollHeight: real)
      requires Valid()
      modifies this
      ensures Valid()
      ensures autoScroll == AtBottom(scrollTop, clientHeight, scrollHeight, ScrollThreshold)
      ensures messages == old(messages) && input == old(input) && isStreaming == old(isStreaming)
      ensures copiedId == old(copiedId) && controller == old(controller) && log == old(log)
      ensures suggestions == old(suggestions) && suggestionsLoading == old(suggestionsLoading)
    {
      var atBottom := AtBottom(scrollTop, clientHeight, scrollHeight, ScrollThreshold);
      if !atBottom && autoScroll {
        autoScroll := false;
        showScrollToBottom := true;
      } else if atBottom && !autoScroll {
        autoScroll := true;
        showScrollToBottom := false;
      }
    }

    /** `scrollToBottomSmooth`: nothing happens without a scroll container. */
    method ScrollToBottomSmooth(hasContainer: bool)
      requires Valid()
      modifies this
      ensures Valid()
      ensures autoScroll == (hasContainer || old(autoScroll))
      ensures messages == old(messages) && input == old(input) && isStreaming == old(isStreaming)
      ensures copiedId == old(copiedId) && controller == old(controller) && log == old(log)
      ensures suggestions == old(suggestions) && suggestionsLoading == old(suggestionsLoading)
    {
      if !hasContainer {
        return;
      }
      autoScroll := true;
      showScrollToBottom := false;
    }

    /** `handleSubmit` up to its `await`: with a non-empty trimmed input and no active
        stream, it appends the user message and an empty streaming assistant message, clears
        the input, turns streaming and auto-scroll on, creates the controller and returns the
        request, whose history already holds the new user message.  Otherwise it does nothing. */
    method Submit(userId: string, assistantId: string) returns (req: Option<Request>)
      requires Valid()
      modifies this
      ensures Valid()
      ensures !AcceptsSubmit(old(input), old(isStreaming)) ==>
        req == None && messages == old(messages) && input == old(input) && isStreaming == old(isStreaming) &&
        autoScroll == old(autoScroll) && controller == old(controller)
      ensures AcceptsSubmit(old(input), old(isStreaming)) ==>
        var prompt := Trim(old(input));
        var user := ChatMessage(userId, User, prompt, false);
        messages == old(messages) + [user, ChatMessage(assistantId, Assistant, "", true)] &&
        req == Some(Request(prompt, old(messages) + [user], assistantId)) &&
        input == "" && isStreaming && autoScroll && controller == Some(Controller(false))
      ensures copiedId == old(copiedId) && log == old(log)
      ensures suggestions == old(suggestions) && suggestionsLoading == old(suggestionsLoading)
    {
      var trimmed := Trim(input);
      if trimmed == "" || isStreaming {
        return None;
      }
      var userMessage := ChatMessage(userId, User, trimmed, false);
      var assistantMessage := ChatMessage(assistantId, Assistant, "", true);
      var history := messages + [userMessage];
      messages := messages + [userMessage, assistantMessage];
      input := "";
      isStreaming := true;
      autoScroll := true;
      showScrollToBottom := false;
      controller := Some(Controller(false));
      req := Some(Request(trimmed, history, assistantId));
    }

    /** `handleRegenerate` up to its `await`: unless a stream is active or there is no
        message to restart, it empties the last assistant message and marks it streaming
        (keeping its id and its place), turns streaming and auto-scroll on, creates the
        controller and resends the messages before it with the user message before it as
        the prompt. */
    method Regenerate() returns (req: Option<Request>)
      requires Valid()
      modifies this
      ensures Valid()
      ensures old(isStreaming) || RegenerateIndex(old(messages)).None? ==>
        req == None && messages == old(messages) && isStreaming == old(isStreaming) &&
        autoScroll == old(autoScroll) && controller == old(controller)
      ensures !old(isStreaming) && RegenerateIndex(old(messages)).Some? ==>
        var i := RegenerateIndex(old(messages)).value;
        messages == old(messages)[i := old(messages)[i].(content := "", isStreaming := true)] &&
        req == Some(Request(old(messages)[i - 1].content, old(messages)[..i], old(messages)[i].id)) &&
        isStreaming && autoScroll && controller == Some(Controller(false))
      ensures input == old(input) && copiedId == old(copiedId) && log == old(log)
      ensures suggestions == old(suggestions) && suggestionsLoading == old(suggestionsLoading)
    {
      if isStreaming || |messages| < 2 {
        return None;
      }
      var last := LastAssistantIndex(messages);
      if last.None? {
        return None;
      }
      var index := last.value;
      LastAssistantIsUnique(messages, index);
      if index == 0 || messages[index - 1].role != User {
        return None;
      }
      var previous := messages[index - 1];
      var assistantMessage := messages[index];
      var history := messages[..index];
      messages := messages[index := assistantMessage.(content := "", isStreaming := true)];
      isStreaming := true;
      autoScroll := true;
      showScrollToBottom := false;
      controller := Some(Controller(false));
      req := Some(Request(previous.content, history, assistantMessage.id));
    }

    /** The rest of `streamChat`: POST the request body, consume the response (a controller
        aborted before the response arrived makes `fetch` reject with an `AbortError`), then
        the `finally` block, which clears the message's streaming flag and the page's, and
        drops the controller.  Returns the `messages` array of the body it sent. */
    method StreamChat(req: Request, response: Response, parse: string -> Option<Json>)
      returns (sent: seq<ApiMessage>)
      requires Valid()
      modifies this
      ensures Valid()
      ensures sent == RequestBody(req)
      ensures var o := StreamResult(old(messages), req.assistantId, Delivered(old(controller) == Some(Controller(true)), response), parse);
        messages == FinishStreaming(o.messages, req.assistantId) && log == old(log) + o.log
      ensures !isStreaming && controller == None
      ensures input == old(input) && autoScroll == old(autoScroll) && copiedId == old(copiedId)
      ensures suggestions == old(suggestions) && suggestionsLoading == old(suggestionsLoading)
    {
      sent := RequestBody(req);
      var o := Consume(messages, req.assistantId, Delivered(controller == Some(Controller(true)), response), parse);
      messages := FinishStreaming(o.messages, req.assistantId);
      log := log + o.log;
      isStreaming := false;
      controller := None;
    }

    /** `handleStop`: `abortControllerRef.current?.abort()`. */
    method Stop()
      modifies this
      ensures controller == if old(controller).Some? then Some(Controller(true)) else None
      ensures messages == old(messages) && input == old(input) && isStreaming == old(isStreaming)
      ensures autoScroll == old(autoScroll) && showScrollToBottom == old(showScrollToBottom)
      ensures copiedId == old(copiedId) && log == old(log)
      ensures suggestions == old(suggestions) && suggestionsLoading == old(suggestionsLoading)
    {
      if controller.Some? {
        controller := Some(Controller(true));
      }
    }

    /** `handleCopy` once the clipboard write settles: success marks the message copied,
        failure only logs, leaving the mark as it was. */
    method CopyMessage(messageId: string, written: bool)
      modifies this
      ensures copiedId == if written then Some(messageId) else old(copiedId)
      ensures log == if written then old(log) else old(log) + [CopyFailed]
      ensures messages == old(messages) && input == old(input) && isStreaming == old(isStreaming)
      ensures autoScroll == old(autoScroll) && showScrollToBottom == old(showScrollToBottom)
      ensures controller == old(controller)
      ensures suggestions == old(suggestions) && suggestionsLoading == old(suggestionsLoading)
    {
      if written {
        copiedId := Some(messageId);
      } else {
        log := log + [CopyFailed];
      }
    }

    /** The 1800 ms timer of `handleCopy`: it clears the mark only if it still names the
        message it was set for. */
    method CopyTimerFired(messageId: string)
      modifies this
      ensures copiedId == if old(copiedId) == Some(messageId) then None else old(copiedId)
      ensures messages == old(messages) && input == old(input) && isStreaming == old(isStreaming)
      ensures autoScroll == old(autoScroll) && showScrollToBottom == old(showScrollToBottom)
      ensures controller == old(controller) && log == old(log)
      ensures suggestions == old(suggestions) && suggestionsLoading == old(suggestionsLoading)
    {
      if copiedId == Some(messageId) {
        copiedId := None;
      }
    }
  }
}
