/**
 * The chat prompt box (components/chat/chat-prompt-input.tsx): the suggestion filter, the
 * Enter key, the send/stop button, and the textarea's height and caret.
 */
module PromptInput {
  import opened Text
  import opened Lists
  import opened PageRules

  const MaxHeightPx: int := 160

  /** `value ? s.toLowerCase().includes(value.toLowerCase()) : true`. */
  predicate KeepsSuggestion(s: string, value: string) {
    value == "" || ContainsIgnoringCase(s, value)
  }

  /** `filteredSuggestions`. */
  function FilteredSuggestions(suggestions: seq<string>, value: string): (r: seq<string>)
    ensures forall i :: 0 <= i < |r| ==> r[i] in suggestions && KeepsSuggestion(r[i], value)
    ensures forall i :: 0 <= i < |suggestions| && KeepsSuggestion(suggestions[i], value) ==> suggestions[i] in r
  {
    Filter(suggestions, (s: string) => KeepsSuggestion(s, value))
  }

  /** An empty value keeps every suggestion, in order; otherwise the kept suggestions are
      those containing the value, ignoring case. */
  lemma FilteredSuggestionsCases(suggestions: seq<string>, value: string)
    ensures value == "" ==> FilteredSuggestions(suggestions, value) == suggestions
    ensures value != "" ==> forall i :: 0 <= i < |suggestions| && ContainsIgnoringCase(suggestions[i], value) ==>
      suggestions[i] in FilteredSuggestions(suggestions, value)
    ensures value != "" ==> forall s :: s in FilteredSuggestions(suggestions, value) ==> ContainsIgnoringCase(s, value)
  {
    if value == "" {
      FilterKeepsAll(suggestions, (s: string) => KeepsSuggestion(s, value));
    }
  }

  /** What `handleKeyDown` does with one key press. */
  datatype KeyEffect = KeyEffect(preventDefault: bool, requestSubmit: bool)

  /** Enter without Shift never inserts a line break, and asks the form to submit only
      when the page would take the submit; any other key is left alone. */
  function KeyDown(isEnter: bool, shift: bool, value: string, streaming: bool): (r: KeyEffect)
    ensures r.preventDefault <==> isEnter && !shift
    ensures r.requestSubmit <==> isEnter && !shift && AcceptsSubmit(value, streaming)
  {
    if isEnter && !shift then KeyEffect(true, !streaming && Trim(value) != "")
    else KeyEffect(false, false)
  }

  datatype ButtonType = SubmitButton | PlainButton

  /** The controls as rendered: the textarea's `disabled`, and the send button's `type`,
      `disabled` and whether its click calls `onStop`. */
  datatype Controls = Controls(textareaDisabled: bool, buttonType: ButtonType, buttonDisabled: bool, clickStops: bool)

  function Render(value: string, streaming: bool): (r: Controls)
    ensures r.textareaDisabled <==> streaming
    ensures r.buttonType == PlainButton <==> streaming
    ensures r.clickStops <==> streaming
    ensures r.buttonDisabled <==> Trim(value) == "" && !streaming
  {
    Controls(streaming, if streaming then PlainButton else SubmitButton, Trim(value) == "" && !streaming, streaming)
  }

  /** The button submits only what the page takes, and while a reply streams it is the
      always-enabled stop button. */
  lemma ButtonAgreesWithPage(value: string, streaming: bool)
    ensures var c := Render(value, streaming);
      (c.buttonType == SubmitButton && !c.buttonDisabled <==> AcceptsSubmit(value, streaming)) &&
      (streaming ==> !c.buttonDisabled && c.clickStops)
  {
  }

  /** The textarea element the handlers change in place. */
  class TextArea {
    var value: string
    var heightPx: int
    var focused: bool
    var selectionStart: nat
    var selectionEnd: nat

    constructor(value: string)
      ensures this.value == value && !focused && selectionStart == 0 && selectionEnd == 0
    {
      this.value := value;
      heightPx := 0;
      focused := false;
      selectionStart := 0;
      selectionEnd := 0;
    }

    /** `handleInputResize`: with the height reset to `auto` the content measures
        `scrollHeight`; the height becomes that, capped at 160 pixels. */
    method Resize(scrollHeight: int)
      modifies this
      ensures heightPx <= MaxHeightPx && heightPx <= scrollHeight
      ensures heightPx == scrollHeight || heightPx == MaxHeightPx
      ensures value == old(value) && focused == old(focused)
      ensures selectionStart == old(selectionStart) && selectionEnd == old(selectionEnd)
    {
      var next := Min(scrollHeight, MaxHeightPx);
      heightPx := next;
    }

    /** `handleSuggestionClick`: the parent takes the suggestion as the new value, then the
        animation-frame callback focuses the textarea and puts the caret after the last
        character. */
    method SuggestionClick(suggestion: string)
      modifies this
      ensures value == suggestion && focused
      ensures selectionStart == |suggestion| && selectionEnd == |suggestion|
      ensures heightPx == old(heightPx)
    {
      value := suggestion;
      focused := true;
      selectionEnd := |value|;
      selectionStart := selectionEnd;
    }
  }
}
