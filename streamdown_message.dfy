/**
 * One rendered chat message (components/ai-chat/streamdown-message.tsx): the like and
 * dislike toggle, the copy mark and its timer, and the action bar shown for assistant
 * messages only.
 */
module StreamdownMessage {
  import opened Wrappers
  import opened ChatTypes

  const CopyResetMs: nat := 2000

  /** The value `handleFeedback(type)` reports: clicking the current choice clears it,
      clicking anything else selects it. */
  function Toggle(current: Option<Feedback>, clicked: Feedback): (r: Option<Feedback>)
    ensures r == None <==> current == Some(clicked)
    ensures r != None ==> r == Some(clicked)
  {
    if current == Some(clicked) then None else Some(clicked)
  }

  /** What reaches the parent: nothing without an `onFeedback` handler, otherwise the
      toggled value. */
  function FeedbackEmitted(hasHandler: bool, current: Option<Feedback>, clicked: Feedback): (r: Option<Option<Feedback>>)
    ensures r.None? <==> !hasHandler
    ensures r.Some? ==> r.value == Toggle(current, clicked)
  {
    if hasHandler then Some(Toggle(current, clicked)) else None
  }

  /** With the parent storing what it is told, a second click on the same button undoes
      the first exactly when nothing or that same choice was set before; after a click on
      the other button, the last click wins. */
  lemma ToggleTwice(current: Option<Feedback>, clicked: Feedback, other: Feedback)
    requires other != clicked
    ensures Toggle(Toggle(current, clicked), clicked) == current <==> current != Some(other)
    ensures Toggle(Toggle(current, clicked), other) == Some(other)
  {
    if current.Some? && current.value != clicked {
      assert current.value == other;
    }
  }

  /** The actions under a message. */
  datatype Action = CopyAction | LikeAction | DislikeAction

  /** The action bar: copy, like and dislike for an assistant message, nothing for a user
      message. */
  function Actions(role: Role): (r: seq<Action>)
    ensures r != [] <==> role == Assistant
    ensures r != [] ==> r == [CopyAction, LikeAction, DislikeAction]
  {
    if role == Assistant then [CopyAction, LikeAction, DislikeAction] else []
  }

  class MessageView {
    const role: Role
    const content: string
    var copied: bool
    /** The `console.error` calls made for failed clipboard writes. */
    var failedCopies: nat

    constructor(role: Role, content: string)
      ensures this.role == role && this.content == content && !copied && failedCopies == 0
    {
      this.role := role;
      this.content := content;
      copied := false;
      failedCopies := 0;
    }

    /** `handleCopy` once the clipboard write settles: success sets the mark, failure only
        logs and leaves the mark as it was. */
    method HandleCopy(written: bool)
      modifies this
      ensures copied == (written || old(copied))
      ensures failedCopies == if written then old(failedCopies) else old(failedCopies) + 1
    {
      if written {
        copied := true;
      } else {
        failedCopies := failedCopies + 1;
      }
    }

    /** The `CopyResetMs` timer a successful copy starts. */
    method CopyTimerFired()
      modifies this
      ensures !copied && failedCopies == old(failedCopies)
    {
      copied := false;
    }
  }
}
