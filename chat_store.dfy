/**
 * The transcript store of hooks/use-chat-stream.ts: the messages, the text of the
 * reply being streamed, an error slot and a ref to the streaming message's id, with
 * the actions the hook returns.
 */
module ChatStore {
  import opened Wrappers
  import opened ChatTypes

  /** A stored message; `timestamp` is the `Date` in milliseconds, and an absent or null
      `feedback` is `None`, an absent `isStreaming` is `false`. */
  datatype StoreMessage = StoreMessage(
    id: string, role: Role, content: string, timestamp: int,
    feedback: Option<Feedback>, isStreaming: bool)

  /** The list `completeStream` leaves: the last message, when it is an assistant message,
      takes the streamed text and stops streaming; any other list is left as it is. */
  function CompletedLast(ms: seq<StoreMessage>, streamed: string): (r: seq<StoreMessage>)
    ensures |r| == |ms|
    ensures ms == [] || ms[|ms| - 1].role != Assistant ==> r == ms
    ensures ms != [] && ms[|ms| - 1].role == Assistant ==>
      r[..|ms| - 1] == ms[..|ms| - 1] &&
      r[|ms| - 1] == ms[|ms| - 1].(content := streamed, isStreaming := false)
  {
    if |ms| == 0 then ms
    else
      var last := ms[|ms| - 1];
      if last.role == Assistant then ms[..|ms| - 1] + [last.(content := streamed, isStreaming := false)]
      else ms
  }

  /** Completing twice with the same text is completing once. */
  lemma CompletedLastIdempotent(ms: seq<StoreMessage>, streamed: string)
    ensures CompletedLast(CompletedLast(ms, streamed), streamed) == CompletedLast(ms, streamed)
  {
    var r := CompletedLast(ms, streamed);
    if ms != [] && ms[|ms| - 1].role == Assistant {
      assert r[|r| - 1].role == Assistant;
      assert r[..|r| - 1] + [r[|r| - 1]] == r;
    }
  }

  /** `prev.map(msg => msg.id === messageId ? { ...msg, feedback } : msg)`. */
  function WithFeedback(ms: seq<StoreMessage>, id: string, feedback: Option<Feedback>): (r: seq<StoreMessage>)
    ensures |r| == |ms|
    ensures forall i :: 0 <= i < |ms| && ms[i].id != id ==> r[i] == ms[i]
    ensures forall i :: 0 <= i < |ms| && ms[i].id == id ==> r[i] == ms[i].(feedback := feedback)
  {
    seq(|ms|, i requires 0 <= i < |ms| => if ms[i].id == id then ms[i].(feedback := feedback) else ms[i])
  }

  /** Feedback changes no id, role, content, time or streaming flag, and the latest choice
      for an id wins. */
  lemma FeedbackLastWriteWins(ms: seq<StoreMessage>, id: string, first: Option<Feedback>, second: Option<Feedback>)
    ensures WithFeedback(WithFeedback(ms, id, first), id, second) == WithFeedback(ms, id, second)
    ensures forall i :: 0 <= i < |ms| ==>
      WithFeedback(ms, id, first)[i].(feedback := ms[i].feedback) == ms[i]
  {
  }

  class ChatStream {
    var messages: seq<StoreMessage>
    var isLoading: bool
    var streamContent: string
    var error: Option<string>
    var messageIdRef: Option<string>

    /** No action ever sets the loading flag, an error or the id ref: they keep their
        initial values. */
    ghost predicate Valid()
      reads this
    {
      !isLoading && error == None && messageIdRef == None
    }

    constructor()
      ensures Valid()
      ensures messages == [] && streamContent == ""
    {
      messages := [];
      isLoading := false;
      streamContent := "";
      error := None;
      messageIdRef := None;
    }

    /** `addMessage`: the message goes at the end. */
    method AddMessage(message: StoreMessage)
      requires Valid()
      modifies this
      ensures Valid()
      ensures messages == old(messages) + [message] && streamContent == old(streamContent)
    {
      messages := messages + [message];
    }

    /** `updateStreamContent`: the streamed text is replaced outright. */
    method UpdateStreamContent(content: string)
      requires Valid()
      modifies this
      ensures Valid()
      ensures streamContent == content && messages == old(messages)
    {
      streamContent := content;
    }

    /** `appendToStreamContent`: the chunk goes at the end of the streamed text. */
    method AppendToStreamContent(chunk: string)
      requires Valid()
      modifies this
      ensures Valid()
      ensures streamContent == old(streamContent) + chunk && messages == old(messages)
    {
      streamContent := streamContent + chunk;
    }

    /** `completeStream`: the streamed text moves into the last message when that is an
        assistant message, and the streamed text is reset in every case. */
    method CompleteStream()
      requires Valid()
      modifies this
      ensures Valid()
      ensures messages == CompletedLast(old(messages), old(streamContent))
      ensures streamContent == ""
    {
      if |messages| > 0 {
        var lastMessage := messages[|messages| - 1];
        if lastMessage.role == Assistant {
          messages := messages[..|messages| - 1] + [lastMessage.(content := streamContent, isStreaming := false)];
        }
      }
      streamContent := "";
    }

    /** `clearMessages`. */
    method ClearMessages()
      requires Valid()
      modifies this
      ensures Valid()
      ensures messages == [] && streamContent == ""
    {
      messages := [];
      streamContent := "";
      error := None;
      messageIdRef := None;
    }

    /** `updateMessageFeedback`. */
    method UpdateMessageFeedback(messageId: string, feedback: Option<Feedback>)
      requires Valid()
      modifies this
      ensures Valid()
      ensures messages == WithFeedback(old(messages), messageId, feedback)
      ensures streamContent == old(streamContent)
    {
      messages := WithFeedback(messages, messageId, feedback);
    }
  }
}
