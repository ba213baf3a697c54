/**
 * The editorial chat page (app/chat/page.tsx).  Its `handleSubmit` holds its own copy
 * of the stream consumer; it is cut at its first `await` the same way as the other
 * page: `Submit` is the synchronous part and `Stream` the rest, `finally` included.
 * Unlike the other page, the request's history is the transcript before the submit,
 * so the prompt is sent once, and there is no regenerate action.
 */
module ChatPage {
  import opened Wrappers
  import opened Text
  import opened ChatTypes
  import opened StreamProtocol
  import opened PageRules

  const ScrollThreshold: real := 48.0

  /** The effect that keeps the view pinned: it scrolls to the bottom only with auto-scroll
      on, a scroll container, and the view at most 48 pixels from the bottom. */
  predicate EffectPinsToBottom(autoScroll: bool, hasContainer: bool, scrollTop: real, clientHeight: real, scrollHeight: real) {
    var distanceFromBottom := scrollHeight - scrollTop - clientHeight;
    autoScroll && hasContainer && !(distanceFromBottom > ScrollThreshold)
  }

  /** The effect's distance test and `handleScroll`'s at-bottom test agree: with a container
      and auto-scroll on, the effect pins the view exactly where a scroll event would keep
      auto-scroll on. */
  lemma EffectAgreesWithScrollTest(scrollTop: real, clientHeight: real, scrollHeight: real)
    ensures EffectPinsToBottom(true, true, scrollTop, clientHeight, scrollHeight)
        <==> AtBottom(scrollTop, clientHeight, scrollHeight, ScrollThreshold)
  {
  }

  /** The request `handleSubmit` sends: the earlier transcript, then the prompt once. */
  lemma SubmitSendsPromptOnce(ms: seq<ChatMessage>, prompt: string, assistantId: string)
    ensures var body := RequestBody(Request(prompt, ms, assistantId));
      |body| == |ms| + 1 && body[..|ms|] == ToApi(ms) && body[|ms|] == ApiMessage(User, prompt) &&
      forall i :: 0 <= i < |ms| ==> body[i] == ApiMessage(ms[i].role, ms[i].content)
  {
    var body := RequestBody(Request(prompt, ms, assistantId));
    forall i | 0 <= i < |ms| ensures body[i] == ApiMessage(ms[i].role, ms[i].content) {
      assert body[i] == body[..|ms|][i];
    }
  }

  class Chat {
    var messages: seq<ChatMessage>
    var input: string
    var isStreaming: bool
    var autoScroll: bool
    var showScrollToBottom: bool
    var controller: Option<Controller>
    /** The `console.error` calls made so far. */
    var log: seq<LogEntry>

    /** The "Scroll to latest" button is shown exactly when auto-scroll is off. */
    ghost predicate Valid()
      reads this
    {
      showScrollToBottom == !autoScroll
    }

    constructor()
      ensures Valid()
      ensures messages == [] && input == "" && !isStreaming && autoScroll && controller == None && log == []
    {
      messages := [];
      input := "";
      isStreaming := false;
      autoScroll := true;
      showScrollToBottom := false;
      controller := None;
      log := [];
    }

    /** `onChange={setInput}`. */
    method Edit(value: string)
      modifies this
      ensures input == value
      ensures messages == old(messages) && isStreaming == old(isStreaming) && controller == old(controller)
      ensures autoScroll == old(autoScroll) && showScrollToBottom == old(showScrollToBottom) && log == old(log)
    {
      input := value;
    }

    /** `handleScroll`: auto-scroll ends up on exactly when the view is within 48 pixels of
        the bottom. */
    method HandleScroll(scrollTop: real, clientHeight: real, scrollHeight: real)
      requires Valid()
      modifies this
      ensures Valid()
      ensures autoScroll == AtBottom(scrollTop, clientHeight, scrollHeight, ScrollThreshold)
      ensures messages == old(messages) && input == old(input) && isStreaming == old(isStreaming)
      ensures controller == old(controller) && log == old(log)
    {
      var atBottom := AtBottom(scrollTop, clientHeight, scrollHeight, ScrollThreshold);
      if !atBottom && autoScroll {
        autoScroll := false;
        showScrollToBottom := true;
      } else if atBottom && !autoScroll {
        autoScroll := true;
        showScrollToBottom := false;
      }
    }

    /** `scrollToBottomSmooth`: nothing happens without a scroll container. */
    method ScrollToBottomSmooth(hasContainer: bool)
      requires Valid()
      modifies this
      ensures Valid()
      ensures autoScroll == (hasContainer || old(autoScroll))
      ensures messages == old(messages) && input == old(input) && isStreaming == old(isStreaming)
      ensures controller == old(controller) && log == old(log)
    {
      if !hasContainer {
        return;
      }
      autoScroll := true;
      showScrollToBottom := false;
    }

    /** `handleSubmit` up to its `await`: with a non-empty trimmed input and no active
        stream, it appends the user message and an empty streaming assistant message, clears
        the input, turns streaming and auto-scroll on, creates the controller and returns the
        request, whose history is the transcript before the submit.  Otherwise it does
        nothing. */
    method Submit(userId: string, assistantId: string) returns (req: Option<Request>)
      requires Valid()
      modifies this
      ensures Valid()
      ensures !AcceptsSubmit(old(input), old(isStreaming)) ==>
        req == None && messages == old(messages) && input == old(input) && isStreaming == old(isStreaming) &&
        autoScroll == old(autoScroll) && controller == old(controller)
      ensures AcceptsSubmit(old(input), old(isStreaming)) ==>
        var prompt := Trim(old(input));
        messages == old(messages) + [ChatMessage(userId, User, prompt, false), ChatMessage(assistantId, Assistant, "", true)] &&
        req == Some(Request(prompt, old(messages), assistantId)) &&
        input == "" && isStreaming && autoScroll && controller == Some(Controller(false))
      ensures log == old(log)
    {
      var trimmed := Trim(input);
      if trimmed == "" || isStreaming {
        return None;
      }
      var userMessage := ChatMessage(userId, User, trimmed, false);
      var assistantMessage := ChatMessage(assistantId, Assistant, "", true);
      var history := messages;
      messages := messages + [userMessage, assistantMessage];
      input := "";
      isStreaming := true;
      autoScroll := true;
      showScrollToBottom := false;
      controller := Some(Controller(false));
      req := Some(Request(trimmed, history, assistantId));
    }

    /** The rest of `handleSubmit`: POST the request body, consume the response (a controller
        aborted before the response arrived makes `fetch` reject with an `AbortError`), then
        the `finally` block.  Returns the `messages` array of the body it sent. */
    method Stream(req: Request, response: Response, parse: string -> Option<Json>)
      returns (sent: seq<ApiMessage>)
      requires Valid()
      modifies this
      ensures Valid()
      ensures sent == RequestBody(req)
      ensures var o := StreamResult(old(messages), req.assistantId, Delivered(old(controller) == Some(Controller(true)), response), parse);
        messages == FinishStreaming(o.messages, req.assistantId) && log == old(log) + o.log
      ensures !isStreaming && controller == None
      ensures input == old(input) && autoScroll == old(autoScroll)
    {
      sent := RequestBody(req);
      var o := Consume(messages, req.assistantId, Delivered(controller == Some(Controller(true)), response), parse);
      messages := FinishStreaming(o.messages, req.assistantId);
      log := log + o.log;
      isStreaming := false;
      controller := None;
    }

    /** `handleStop`: `abortControllerRef.current?.abort()`. */
    method Stop()
      modifies this
      ensures controller == if old(controller).Some? then Some(Controller(true)) else None
      ensures messages == old(messages) && input == old(input) && isStreaming == old(isStreaming)
      ensures autoScroll == old(autoScroll) && showScrollToBottom == old(showScrollToBottom) && log == old(log)
    {
      if controller.Some? {
        controller := Some(Controller(true));
      }
    }
  }
}
