# Git-Friend chat client, modelled in Dafny

Git-Friend is a Next.js web app that answers Git and GitHub questions through a streaming
chat. This project models the client-side core of that app and proves properties of the
model:

- **The streaming chat exchange.** Both chat pages share it: `app/ai-chat/page.tsx` and
  `app/chat/page.tsx`. It is modelled in `StreamProtocol`.
  - The request body is built from the transcript.
  - The decoded response is cut into frames at every blank line, and an unfinished tail is
    kept for the next read.
  - Only `data:` frames are kept, and `[DONE]` is skipped.
  - The text delta is picked by the `content ?? delta.content ?? choices[0].delta.content`
    priority.
  - The delta is appended to the assistant message that the request names.
  - The `finally` updater clears that message's streaming flag.
  - An abort is never logged.
- **The two chat pages as state machines** (`AiChatPage.AiChat`, `ChatPage.Chat`).
  - Submit, regenerate, stop, scroll, copy, and the suggestion fetch each become a method.
  - Every async handler is split into its synchronous prefix (up to the first `await`) and
    its continuation, so a stop or a second submit can happen in between.
- **The chat store hook** (`ChatStore.ChatStream`) and the chat message component's
  feedback toggle and copy mark (`StreamdownMessage`).
- **The suggestions API route** (`SuggestionsRoute`).
  - It strips code fences and trims the reply.
  - It takes the widest `[...]` span.
  - It parses that span and returns at most four suggestions, or a logged 500 error.
- **The markdown renderers** (`Markdown`, `UiMessage`, `AiResponse`, `MarkdownPreview`).
  - Links and images with `javascript:`, `data:` or `vbscript:` URLs are blocked.
  - The code-language is extracted from the class name.
  - Inline code is told apart from code blocks.
  - A disallowed-element list is applied.
  - The memo equality compares content only.
- **Smaller pieces:**
  - the prompt input's suggestion filter, Enter key and send/stop button (`PromptInput`);
  - the gitmoji page's search, category tabs and copy mark (`GitMojis`);
  - the helpers in `lib/ai/utils.ts` (`AiUtils`), including the code-block extractor as a
    loop;
  - the landing page's typewriter demo (`TypewriterDemo.AiChatDemo`);
  - the login gate (`ProtectedRoute`).

Shared modules:

- `Wrappers` holds `Option`.
- `Text` holds the string built-ins the source calls. The whitespace set is the six ASCII
  whitespace characters, and lower-casing maps A–Z only.
- `Lists` holds `filter`.
- `ChatTypes` and `PageRules` hold the submit guard and the at-bottom test that both pages
  use.

What the model takes as parameters:

- The outside world: JSON parsing (`parse: string -> Option<...>`), ids made from
  `Date.now()`, clipboard success, DOM scroll measurements (as reals), and the chunks a
  response body delivers.
- Timers: each becomes an explicit method (`CopyTimerFired`, `AdvanceTimerFired`, `Tick`)
  that runs when the timer fires.
- Regular expressions: each is given the semantics of its one pattern.

## Model

| member | source | states |
|---|---|---|
| StreamProtocol.ToApi | app/ai-chat/page.tsx:104 | one `{role, content}` entry per transcript message, in order |
| StreamProtocol.RequestBody | app/ai-chat/page.tsx:102-107 | the body is the history's entries followed by one user entry holding the prompt |
| StreamProtocol.SplitJoin | app/ai-chat/page.tsx:121-123 | joining the complete frames and the kept tail with blank lines gives back exactly the buffer: nothing is lost or invented |
| StreamProtocol.SplitPiecesAreSeparatorFree | app/ai-chat/page.tsx:122-123 | no complete frame contains a blank line, and the kept tail contains none either |
| StreamProtocol.JoinSplit | app/ai-chat/page.tsx:122-123 | splitting frames that were joined with blank lines gives back those frames and that tail (the inverse of SplitJoin) |
| StreamProtocol.SplitUnterminated | app/ai-chat/page.tsx:122-123 | a buffer without a blank line has no complete frame and is kept whole as the tail |
| StreamProtocol.SplitTerminated | app/ai-chat/page.tsx:122-123 | one frame followed by a blank line is exactly one complete frame with an empty tail |
| StreamProtocol.SplitAppend | app/ai-chat/page.tsx:121-123 | splitting what was read so far, then more, yields the earlier frames followed by the frames of the kept tail plus the new text: how reads are cut does not matter |
| StreamProtocol.FrameDataIsTextAfterPrefix | app/ai-chat/page.tsx:126-128 | a frame is kept exactly when, after leading whitespace, it starts with `data:` and the trimmed rest is neither empty nor `[DONE]`; the payload is that trimmed rest |
| StreamProtocol.PayloadAfterPrefix | app/ai-chat/page.tsx:127 | replacing the first `data:` and trimming gives the same text as dropping the prefix after leading whitespace |
| StreamProtocol.DeltaOf | app/ai-chat/page.tsx:132-136 | the delta is `content`, else `delta.content`, else `choices[0].delta.content`, else empty, in that priority |
| StreamProtocol.AppendDelta | app/ai-chat/page.tsx:138-143 | the message carrying the id gets the delta appended; every other message is unchanged |
| StreamProtocol.FinishStreaming | app/ai-chat/page.tsx:154-159 | the message carrying the id stops streaming with its content unchanged; every other message is unchanged |
| StreamProtocol.AppendDeltaTouchesOneMessage | app/ai-chat/page.tsx:139-143 | with unique ids, exactly the one message at the id's position changes |
| StreamProtocol.ApplySegmentsAppend | app/ai-chat/page.tsx:125-148 | walking two runs of frames one after the other is walking their concatenation |
| StreamProtocol.ApplySegmentsContent | app/ai-chat/page.tsx:125-148 | after the frames, the message carrying the id holds its old content followed by every frame's delta in order; other messages are unchanged |
| StreamProtocol.StreamResultContent | app/ai-chat/page.tsx:95-162 | whatever way the request ends, the transcript keeps its length, the target message gets the streamed text and stops streaming, and the others are untouched |
| StreamProtocol.ExchangeOutcome | app/ai-chat/page.tsx:185 | a submitted exchange ends as the user message followed by an assistant message holding exactly the streamed text, no longer streaming |
| StreamProtocol.Delivered | app/ai-chat/page.tsx:96-109 | a request aborted before its response arrives settles as an `AbortError` rejection; otherwise as the server answered |
| StreamProtocol.AbortIsNotLogged | app/ai-chat/page.tsx:150-153 | an abort before or during the reads adds no log entry and keeps what was streamed before it |
| StreamProtocol.ReadLoop | app/ai-chat/page.tsx:117-149 | the loop applies exactly the complete frames of everything read, in order, and leaves the unfinished tail in `buffer` |
| StreamProtocol.Consume | app/ai-chat/page.tsx:95-153 | the `try`/`catch` around the request: a missing body or a failure other than an abort is logged once; otherwise the frames are applied |
| AiChatPage.Reverse | app/ai-chat/page.tsx:197 | element i of the reversed copy is element n-1-i of the original |
| AiChatPage.FindIndex | app/ai-chat/page.tsx:197 | the first index whose element passes, or none when no element passes |
| AiChatPage.LastAssistantIndex | app/ai-chat/page.tsx:197-200 | the position of the last assistant message, or none when there is no assistant message |
| AiChatPage.RegenerateIndex | app/ai-chat/page.tsx:195-204 | regeneration targets the last assistant message, and only when there are two or more messages and a user message directly precedes it |
| AiChatPage.LastAssistantIsUnique | app/ai-chat/page.tsx:197-200 | the last assistant message is a single position |
| AiChatPage.ShownRegenerateRestartsIt | app/ai-chat/page.tsx:308-311 | when the regenerate button is shown for a message, regenerating restarts that same message |
| AiChatPage.RegenerateSendsPromptTwice | app/ai-chat/page.tsx:194-219 | the body sent on regenerate is the transcript before the prompt followed by the prompt twice |
| AiChatPage.CorrectedRegenerateSendsPromptOnce | app/ai-chat/page.tsx:194-219 | with the history cut before the prompt, the body is the transcript up to the prompt, each message once |
| AiChatPage.SubmitSendsPromptTwice | app/ai-chat/page.tsx:183-191 | the body sent on submit is the earlier transcript followed by the prompt twice |
| AiChatPage.AiChat.constructor | app/ai-chat/page.tsx:27-34 | empty transcript and input, not streaming, auto-scroll on, the fallback suggestions loading |
| AiChatPage.AiChat.Edit | app/ai-chat/page.tsx:27 | only the input changes |
| AiChatPage.AiChat.SuggestionsLoaded | app/ai-chat/page.tsx:42-60 | a non-empty fetched array replaces the fallback suggestions; loading ends whatever happened |
| AiChatPage.AiChat.HandleScroll | app/ai-chat/page.tsx:67-79 | auto-scroll becomes the 64-pixel at-bottom test, and the jump button shows exactly when auto-scroll is off |
| AiChatPage.AiChat.ScrollToBottomSmooth | app/ai-chat/page.tsx:81-86 | with a container, auto-scroll turns on and the jump button hides; without one, nothing changes |
| AiChatPage.AiChat.Submit | app/ai-chat/page.tsx:165-191 | a blank input or a running stream changes nothing; otherwise the user and an empty streaming assistant message are appended, the input clears, and the request carries the trimmed prompt and the history that includes it |
| AiChatPage.AiChat.Regenerate | app/ai-chat/page.tsx:194-219 | with no target, or while streaming, nothing changes; otherwise the target message is emptied and streams again, and the request carries the preceding prompt and the transcript before the target |
| AiChatPage.AiChat.StreamChat | app/ai-chat/page.tsx:88-162 | sends the request body; the transcript becomes the stream's result with the target no longer streaming; an abort requested before the response counts as an abort; streaming ends and the controller clears |
| AiChatPage.AiChat.Stop | app/ai-chat/page.tsx:234-236 | aborts the current controller, if any; nothing else changes |
| AiChatPage.AiChat.CopyMessage | app/ai-chat/page.tsx:222-231 | a successful copy marks that message; a failed one leaves the mark and logs one error |
| AiChatPage.AiChat.CopyTimerFired | app/ai-chat/page.tsx:226-228 | the 1800 ms timer clears the mark only if it still names that message |
| ChatPage.EffectAgreesWithScrollTest | app/chat/page.tsx:39-54 | the pinning effect's distance test agrees with the 48-pixel at-bottom test of the scroll handler |
| ChatPage.SubmitSendsPromptOnce | app/chat/page.tsx:104-108 | the body sent on submit is the earlier transcript followed by the prompt once |
| ChatPage.Chat.constructor | app/chat/page.tsx:26-30 | empty transcript and input, not streaming, auto-scroll on |
| ChatPage.Chat.Edit | app/chat/page.tsx:26 | only the input changes |
| ChatPage.Chat.HandleScroll | app/chat/page.tsx:51-63 | auto-scroll becomes the 48-pixel at-bottom test, and the jump button shows exactly when auto-scroll is off |
| ChatPage.Chat.ScrollToBottomSmooth | app/chat/page.tsx:65-71 | with a container, auto-scroll turns on and the jump button hides; without one, nothing changes |
| ChatPage.Chat.Submit | app/chat/page.tsx:73-95 | a blank input or a running stream changes nothing; otherwise two messages are appended, the input clears, and the request carries the trimmed prompt and the transcript before it |
| ChatPage.Chat.Stream | app/chat/page.tsx:97-166 | sends the request body; the transcript becomes the stream's result with the target no longer streaming; streaming ends and the controller clears |
| ChatPage.Chat.Stop | app/chat/page.tsx:169-171 | aborts the current controller, if any; nothing else changes |
| ChatStore.CompletedLast | hooks/use-chat-stream.ts:48-63 | only a trailing assistant message takes the streamed content and stops streaming; any other transcript is unchanged |
| ChatStore.CompletedLastIdempotent | hooks/use-chat-stream.ts:48-63 | completing twice with the same content is completing once |
| ChatStore.WithFeedback | hooks/use-chat-stream.ts:74-78 | every message with that id gets the feedback; the others are unchanged |
| ChatStore.FeedbackLastWriteWins | hooks/use-chat-stream.ts:74-78 | two feedback updates of one message leave the second |
| ChatStore.ChatStream.constructor | hooks/use-chat-stream.ts:30-34 | no messages and empty stream content |
| ChatStore.ChatStream.AddMessage | hooks/use-chat-stream.ts:36-38 | the message is appended |
| ChatStore.ChatStream.UpdateStreamContent | hooks/use-chat-stream.ts:40-42 | the stream content is replaced |
| ChatStore.ChatStream.AppendToStreamContent | hooks/use-chat-stream.ts:44-46 | the chunk is appended to the stream content |
| ChatStore.ChatStream.CompleteStream | hooks/use-chat-stream.ts:48-65 | the transcript is completed with the stream content, which then resets |
| ChatStore.ChatStream.ClearMessages | hooks/use-chat-stream.ts:67-72 | messages and stream content are emptied |
| ChatStore.ChatStream.UpdateMessageFeedback | hooks/use-chat-stream.ts:74-78 | the transcript takes the feedback; the stream content is kept |
| StreamdownMessage.Toggle | components/ai-chat/streamdown-message.tsx:44-46 | clicking the current choice clears it; clicking another selects it |
| StreamdownMessage.FeedbackEmitted | components/ai-chat/streamdown-message.tsx:44-48 | nothing is reported without a handler; otherwise the toggled value is reported |
| StreamdownMessage.ToggleTwice | components/ai-chat/streamdown-message.tsx:44-46 | a second click on the same button undoes the first exactly when the other choice was not set; after a click on the other button, the last click wins |
| StreamdownMessage.Actions | components/ai-chat/streamdown-message.tsx:100 | assistant messages get copy, like and dislike; user messages get none |
| StreamdownMessage.MessageView.constructor | components/ai-chat/streamdown-message.tsx:31-32 | not copied, nothing logged |
| StreamdownMessage.MessageView.HandleCopy | components/ai-chat/streamdown-message.tsx:34-41 | a successful write sets the mark; a failed one only logs |
| StreamdownMessage.MessageView.CopyTimerFired | components/ai-chat/streamdown-message.tsx:38 | the 2000 ms timer clears the mark |
| PromptInput.FilteredSuggestions | components/chat/chat-prompt-input.tsx:30-32 | the kept suggestions are exactly those that pass the case-insensitive containment test, in order |
| PromptInput.FilteredSuggestionsCases | components/chat/chat-prompt-input.tsx:30-32 | an empty value keeps every suggestion; otherwise the kept ones are exactly those containing the value, ignoring case |
| PromptInput.KeyDown | components/chat/chat-prompt-input.tsx:41-47 | Enter without Shift is always swallowed and submits only what the page would accept; other keys do nothing |
| PromptInput.Render | components/chat/chat-prompt-input.tsx:72-85 | while streaming, the textarea is disabled and the button is an enabled stop button; otherwise the button submits and is disabled for a blank value |
| PromptInput.ButtonAgreesWithPage | components/chat/chat-prompt-input.tsx:81-85 | the button submits exactly when the page accepts a submit |
| PromptInput.TextArea.constructor | components/chat/chat-prompt-input.tsx:65-72 | the textarea starts with the value, unfocused, caret at 0 |
| PromptInput.TextArea.Resize | components/chat/chat-prompt-input.tsx:34-39 | the height becomes the content height capped at 160 pixels |
| PromptInput.TextArea.SuggestionClick | components/chat/chat-prompt-input.tsx:50-59 | the value becomes the suggestion, the textarea is focused and the caret sits after the last character |
| Lists.Filter | app/git-mojis/page.tsx:71-75 | the kept elements are exactly the passing ones |
| Lists.FilterAppend | app/git-mojis/page.tsx:71-75 | filtering keeps the original order |
| Lists.FilterKeepsAll | app/git-mojis/page.tsx:71-75 | a filter that passes everything keeps everything |
| Lists.FilterDropsAll | app/git-mojis/page.tsx:71-75 | a filter that passes nothing keeps nothing |
| Lists.FilterTwice | app/git-mojis/page.tsx:77-79 | filtering the search result by tab is one filter with both tests |
| GitMojis.Filtered | app/git-mojis/page.tsx:71-75 | the shown entries are exactly the table entries whose description or code contains the term, ignoring case |
| GitMojis.ByCategory | app/git-mojis/page.tsx:77-79 | a tab shows exactly the shown entries of its category |
| GitMojis.Shortcode | app/git-mojis/page.tsx:28-63 | a code is the name between two colons |
| GitMojis.TableCodes | app/git-mojis/page.tsx:28-63 | the table has 24 entries, each code is colon-delimited, and no two codes are equal |
| GitMojis.EmptySearchKeepsAll | app/git-mojis/page.tsx:71-75 | an empty search shows the whole table |
| GitMojis.EachEntryInOneTab | app/git-mojis/page.tsx:77-79 | every shown entry is in exactly one tab |
| GitMojis.TabsPartition | app/git-mojis/page.tsx:192 | the tab counts add up to the number of shown entries |
| GitMojis.NoticesAgree | app/git-mojis/page.tsx:185 | the "nothing found" notice shows exactly when every tab is empty |
| GitMojis.AtMostOneCopied | app/git-mojis/page.tsx:225 | at most one entry reads "Copied!" at a time |
| GitMojis.GitMojisPage.constructor | app/git-mojis/page.tsx:25-26 | empty search, nothing copied |
| GitMojis.GitMojisPage.Search | app/git-mojis/page.tsx:25 | only the search term changes |
| GitMojis.GitMojisPage.CopyToClipboard | app/git-mojis/page.tsx:65-68 | the copied code is marked |
| GitMojis.GitMojisPage.CopyTimerFired | app/git-mojis/page.tsx:68 | the timer clears the mark |
| AiUtils.BuildMessagesForApi | lib/ai/utils.ts:24-35 | the system prompt, then the user message |
| AiUtils.IsValidStreamChunk | lib/ai/utils.ts:40-42 | true exactly for a non-empty string |
| AiUtils.SanitizeUserInput | lib/ai/utils.ts:47-49 | the result is a prefix of the trimmed input of at most 10000 characters: all of it when short enough, otherwise exactly 10000 |
| AiUtils.SanitizeKeepsShortTrimmed | lib/ai/utils.ts:47-49 | sanitizing a short input twice is sanitizing it once |
| AiUtils.MatchAt | lib/ai/utils.ts:55 | a match starts with three backticks at the position and ends inside the text |
| AiUtils.MatchAtShape | lib/ai/utils.ts:55 | a match is backticks, an optional word tag, a newline, a body with no closing fence inside, a newline and backticks |
| AiUtils.NextMatch | lib/ai/utils.ts:59 | the next match starts at or after the search position |
| AiUtils.NextMatchIsLeftmost | lib/ai/utils.ts:59 | no match starts between the search position and the next match |
| AiUtils.Matches | lib/ai/utils.ts:59-64 | the matches lie in the text, in order, without overlapping |
| AiUtils.MatchesAreMatches | lib/ai/utils.ts:59-64 | every listed match is the pattern's match at its start |
| AiUtils.ToBlocks | lib/ai/utils.ts:60-63 | one block per match, in order |
| AiUtils.ExtractCodeBlocks | lib/ai/utils.ts:54-66 | the loop returns exactly the blocks of the successive leftmost matches |
| AiUtils.NoFenceNoBlocks | lib/ai/utils.ts:54-66 | text without three backticks yields no blocks |
| AiUtils.BlocksAreWellFormed | lib/ai/utils.ts:61-62 | a block's language is its tag, or `plaintext` when the tag is absent, and its code is the body between the newlines |
| SuggestionsRoute.RawReply | app/api/suggestions/route.tsx:29 | the first choice's content, or empty when it is absent |
| SuggestionsRoute.LetterRun | app/api/suggestions/route.tsx:32 | the longest run of letters, either case, at a position |
| SuggestionsRoute.StripFences | app/api/suggestions/route.tsx:32 | stripping never lengthens the text |
| SuggestionsRoute.StripLeavesNoTriple | app/api/suggestions/route.tsx:32 | no three backticks survive the global replace |
| SuggestionsRoute.StripKeepsFenceFree | app/api/suggestions/route.tsx:32 | text without three backticks is left unchanged |
| SuggestionsRoute.StripIdempotent | app/api/suggestions/route.tsx:32 | stripping twice is stripping once |
| SuggestionsRoute.Clean | app/api/suggestions/route.tsx:32 | the cleaned reply holds no three backticks and has no whitespace at either end |
| SuggestionsRoute.CleanIdempotent | app/api/suggestions/route.tsx:32 | cleaning twice is cleaning once |
| SuggestionsRoute.FirstIndex | app/api/suggestions/route.tsx:35 | the leftmost occurrence of the character |
| SuggestionsRoute.LastIndex | app/api/suggestions/route.tsx:35 | the rightmost occurrence of the character |
| SuggestionsRoute.ArraySpan | app/api/suggestions/route.tsx:35 | a match starts with `[` and ends with `]` |
| SuggestionsRoute.ArraySpanIff | app/api/suggestions/route.tsx:35-36 | there is a match exactly when some `[` comes before some `]` |
| SuggestionsRoute.ArraySpanIsWidest | app/api/suggestions/route.tsx:35 | the match runs from the first `[` to the last `]` |
| SuggestionsRoute.Suggest | app/api/suggestions/route.tsx:29-41 | success carries one to four suggestions |
| SuggestionsRoute.SuggestFromCleaned | app/api/suggestions/route.tsx:35-41 | success carries one to four suggestions |
| SuggestionsRoute.Get | app/api/suggestions/route.tsx:29-45 | the status is 200 with one to four suggestions, or 500 with null suggestions and a logged error |
| SuggestionsRoute.GetSucceedsIff | app/api/suggestions/route.tsx:29-41 | success exactly when the completion succeeded, an array span exists and parses as a non-empty array; the suggestions are then its first four elements, or all of them when fewer |
| SuggestionsRoute.SameCleanSameReply | app/api/suggestions/route.tsx:32-45 | two replies that clean to the same text get the same response |
| SuggestionsRoute.FencedReplyAsPlain | app/api/suggestions/route.tsx:31-32 | a reply wrapped in a lettered code fence cleans like the bare reply |
| Markdown.BlockedIffDangerous | components/ui/markdown.tsx:69 | a URL is blocked exactly when it is present and starts with `javascript:`, `data:` or `vbscript:` |
| Markdown.SchemeCaseMatters | components/ui/markdown.tsx:69 | the test is case-sensitive and anchored: any URL whose first character is not the lower-case first letter of a scheme (`JavaScript:`, a leading space) is never blocked |
| Markdown.RenderLink | components/ui/markdown.tsx:67-77 | a blocked link renders as a span with its children; any other renders as an anchor with the href, a new tab and `noopener noreferrer` |
| Markdown.AnchorsAreSafe | components/ui/message.tsx:69-78 | no rendered anchor carries a dangerous URL |
| Markdown.RenderImage | components/ui/markdown.tsx:79-85 | a blocked image renders nothing; any other keeps its source and attributes |
| Markdown.ImagesAreSafe | components/ui/message.tsx:80-85 | no rendered image carries a dangerous source |
| Markdown.SourceUrl | components/chat/ai-response.tsx:57 | only a string source is passed on as the image URL |
| Markdown.SourceBlockedAgrees | components/chat/ai-response.tsx:49-52 | the `typeof src === "string"` test blocks exactly what the truthiness test blocks |
| Markdown.FirstLanguage | components/ui/markdown.tsx:38 | the leftmost `language-` followed by a word character |
| Markdown.ExtractLanguage | components/ui/markdown.tsx:36-40 | a missing or empty class is `plaintext`; otherwise the result is `plaintext` or a non-empty run of word characters |
| Markdown.ExtractLanguageIsLeftmost | components/ui/markdown.tsx:38-39 | the language is the word run after the leftmost match |
| Markdown.NoLanguageIsPlainText | components/ui/markdown.tsx:39 | a class without a match gives `plaintext` |
| Markdown.ExtractLanguageOfTag | components/ui/markdown.tsx:36-40 | `language-` followed by a word tag gives back that tag |
| Markdown.IsInline | components/ui/markdown.tsx:44-45 | inline exactly when the start line is absent or 0, or equals the end line |
| Markdown.RenderCode | components/ui/markdown.tsx:43-62 | inline code keeps class and text; a block gets the extracted language and the text as code |
| Markdown.BlocksSpanLines | components/ui/markdown.tsx:44-47 | a code block has a known non-zero start line different from its end line |
| Markdown.Prune | components/ui/markdown.tsx:101-102 | no disallowed element remains anywhere in the tree, and no level gains nodes |
| Markdown.PruneKeepsAllowed | components/ui/markdown.tsx:101-102 | a tree without disallowed elements is unchanged |
| Markdown.PruneAppend | components/ui/markdown.tsx:101-102 | pruning works sibling by sibling, so the allowed siblings of a removed element stay |
| Markdown.PruneDropsDisallowed | components/ui/markdown.tsx:101-102 | disallowed elements are removed with their children, not unwrapped |
| Markdown.PropsAreEqualIsEquivalence | components/ui/markdown.tsx:110-112 | memo equality is an equivalence that compares content only and ignores components |
| UiMessage.OrElse | components/ui/message.tsx:44 | a non-empty value wins; otherwise the default |
| UiMessage.DomOrder | components/ui/message.tsx:14-20 | the avatar, when given, comes before the children for start (the default) and after them for end |
| UiMessage.Reverse | components/ui/message.tsx:17 | `flex-row-reverse` shows the slots in reverse order |
| UiMessage.AvatarAlwaysOnTheLeft | components/ui/message.tsx:17-20 | as written, the avatar is displayed first for both alignments |
| UiMessage.CorrectedDisplayOrder | components/ui/message.tsx:14-20 | the avatar is displayed on the start side for start and on the end side for end |
| UiMessage.Avatar | components/ui/message.tsx:41-48 | a non-empty source gives an image with the alt or the fallback; otherwise the fallback's first letter |
| UiMessage.PlaceholderNeverShown | components/ui/message.tsx:43 | the placeholder image is never used, because an empty source never reaches the image |
| UiMessage.RenderContent | components/ui/message.tsx:58-93 | markdown only when asked; then the disallowed list applies and elements are not unwrapped |
| UiMessage.MarkdownModeDropsDisallowed | components/ui/message.tsx:65-66 | markdown content holds no disallowed element, and allowed content is kept |
| AiResponse.IsAnimating | components/chat/ai-response.tsx:13-27 | animation runs exactly when streaming is set |
| AiResponse.RenderImage | components/chat/ai-response.tsx:48-58 | a dangerous string source renders nothing; otherwise the image gets the string source and the alt or empty |
| AiResponse.ImageAgreesWithMarkdown | components/chat/ai-response.tsx:48-54 | blocks exactly the images the markdown renderer blocks, and never shows a dangerous source |
| MarkdownPreview.PreviewLink | components/readme/markdown-preview.tsx:89-107 | like the markdown link, with the blue class on the span and the anchor |
| MarkdownPreview.PreviewLinkAgrees | components/readme/markdown-preview.tsx:89-95 | blocks exactly the links the markdown renderer blocks, with the same target and href |
| MarkdownPreview.PreviewImage | components/readme/markdown-preview.tsx:79-88 | a dangerous string source renders nothing; otherwise only a string source is kept |
| MarkdownPreview.PreviewImageAgrees | components/readme/markdown-preview.tsx:79-87 | for string sources it is the markdown image renderer |
| MarkdownPreview.CopyLabel | components/readme/markdown-preview.tsx:49-59 | "Copied!" exactly when copied, otherwise "Copy" |
| MarkdownPreview.Regenerate | components/readme/markdown-preview.tsx:61-71 | the button exists exactly with a handler and is disabled unless regeneration is allowed |
| TypewriterDemo.StepLengths | components/ui/chat.tsx:11-36 | each demo text is non-empty and under 200 characters |
| TypewriterDemo.DoneMsMonotone | components/ui/chat.tsx:67-71 | finishing more steps never takes less time |
| TypewriterDemo.DemoDurationMs | components/ui/chat.tsx:11-36 | at 40 ms per user character, 18 ms per reply character and a 600 ms pause per step, the whole demo takes 8792 ms |
| TypewriterDemo.DemoStepsTypeable | components/ui/chat.tsx:11-36 | the script has four typeable steps |
| TypewriterDemo.Partial | components/ui/chat.tsx:56-61 | the shown message has the step's role and the first `index` characters of its text |
| TypewriterDemo.AiChatDemo.constructor | components/ui/chat.tsx:39-48 | nothing shown, step 0, ticking, no time elapsed |
| TypewriterDemo.AiChatDemo.Tick | components/ui/chat.tsx:48-70 | one more character of the current step is shown, earlier steps are kept, ticking stops at the end of the text, and the tick costs 40 ms for a user step and 18 ms for a reply |
| TypewriterDemo.AiChatDemo.AdvanceTimerFired | components/ui/chat.tsx:69 | the 600 ms timer moves to the next step, 600 ms later, and ticking restarts while steps remain |
| TypewriterDemo.ShownIsPrefixOfScript | components/ui/chat.tsx:51-64 | every shown message is a prefix of its script step |
| TypewriterDemo.FinishedShowsScript | components/ui/chat.tsx:43 | after the last step the whole script is shown, and the time of all steps has elapsed |
| TypewriterDemo.ElapsedWithinTotal | components/ui/chat.tsx:48-71 | no state of the demo lies later than the time all steps take, and that time is reached exactly when the last step has advanced |
| TypewriterDemo.EventsRunToTheEnd | components/ui/chat.tsx:42-74 | before the end a tick or the advance timer is pending, and the pending work is never negative |
| ProtectedRoute.Render | components/auth/protected-route.tsx:36-44 | nothing while loading; then the children exactly for a user or a guest, and the modal as its state says |
| ProtectedRoute.ChildrenNeedAUserOrGuest | components/auth/protected-route.tsx:36-44 | without a user or a guest, the children are never shown |
| ProtectedRoute.LoginGate.constructor | components/auth/protected-route.tsx:16-25 | the modal opens at mount exactly when login is needed |
| ProtectedRoute.LoginGate.Rerender | components/auth/protected-route.tsx:20-25 | the effect runs only when user or loading change, and only ever opens the modal when login is needed |
| ProtectedRoute.LoginGate.LoginSuccess | components/auth/protected-route.tsx:27-29 | the modal closes |
| ProtectedRoute.LoginGate.CloseModal | components/auth/protected-route.tsx:31-34 | the modal closes and "/" is pushed |
| Text.Trim | lib/ai/utils.ts:48 | no whitespace at either end, and empty exactly for all-whitespace input |
| Text.TrimIsInfix | lib/ai/utils.ts:48 | the trimmed text is a run of the input with only whitespace before and after it |
| Text.ReplaceFirst | app/ai-chat/page.tsx:127 | only the first occurrence is replaced |
| Text.Lower | components/chat/chat-prompt-input.tsx:31 | each letter A-Z becomes its lower-case letter, every other character is kept, and no upper-case letter is left |
| Text.LowerIdempotent | components/chat/chat-prompt-input.tsx:31 | lower-casing twice is lower-casing once |
| Text.ContainsIff | components/chat/chat-prompt-input.tsx:31 | `includes` holds exactly when the text occurs at some position |

## Left out

- JSON parsing is a parameter (`string -> Option<...>`). The JSON grammar is not modelled, and the elements of a suggestions array are kept as text.
- Strings are sequences of `char`. The model does not capture UTF-16 code units versus code points, `TextDecoder`'s handling of multi-byte characters split across chunks, or Unicode whitespace and case mapping. Trimming knows the six ASCII whitespace characters, and lower-casing maps A–Z only.
- `fetch`, the response body reader, the clipboard, `console.error`, the router and `Date.now()` ids are parameters or recorded effects. The network, the Groq API call and the `/api/chat` server are not part of this model.
- Timers are explicit event methods. Only the typewriter demo records the time its timers take; elsewhere the model does not capture their timing, or the interleaving of a timer with other events beyond calling the methods in any order.
- DOM scroll geometry is a set of real-number parameters.
- The ai-chat page's auto-scroll effect (app/ai-chat/page.tsx:62-65) is not modelled. It only scrolls the DOM and changes no state the model tracks.
- React's batching of state updates and its effect scheduling are not modelled. Handlers act on the state current when they run.
- ChatStore.ChatStream.CompleteStream reads the current stream content. The hook's callback closes over the value from its last render, so a stale closure is not modelled.
- `parseMarkdownIntoBlocks` (components/ui/markdown.tsx:31-34) needs the `marked` lexer, which is not part of this model. The block keys (components/ui/markdown.tsx:124-126) are not modelled either.
- ReactMarkdown, Streamdown and remark-gfm rendering, and their own URL transforms, are not part of this model. Only the components this repository passes to them are modelled.
- Markdown.RenderLink: the `{...props}` spread after `target` and `rel` could override them. The model assumes the renderer passes no such props.
- Markdown.SchemeCaseMatters: states the case-sensitivity for the first character only; a scheme with a later letter in another case (`jAvascript:`) passes the same prefix test but is not covered by the lemma. The renderer library's own sanitising is not modelled.
- GitMojis: the table's codes are proved distinct and colon-delimited. Their names are not proved to be word characters.
- TypewriterDemo.AiChatDemo: the effect's cleanup on unmount is not modelled.
- TypewriterDemo.AiChatDemo.AdvanceTimerFired: after the last step, `index` is set to 0, standing in for the effect that no longer runs.
- ProtectedRoute: the user is modelled by its identity, so `Rerender` reruns the effect when one user replaces another. React compares the `user` object by reference, so a new object for the same user reruns the effect in the component but not in the model. This makes no difference to the state: the effect opens the modal only when there is no user.
- The landing page, the theme toggle, the layout and the gitmoji API route are outside this model.

## Findings

| source | as written | input that shows it | evidently intended | confidence | as-written member | corrected member |
|---|---|---|---|---|---|---|
| components/ui/message.tsx:17-20 | with `align="end"` the avatar is placed after the children, and `flex-row-reverse` then displays it first | `align="end"` with an avatar: the display order is avatar, then children, the same as for `start` | the avatar sits on the end side for `end` messages | medium, not executed (the app's own `end` messages pass no avatar) | UiMessage.AvatarAlwaysOnTheLeft | UiMessage.CorrectedDisplayOrder |
| app/ai-chat/page.tsx:183-191 | the history passed to `streamChat` already ends with the new user message, and `streamChat` appends the prompt again | a first submit of "hi" sends two user entries, both "hi" | the prompt is sent once after the earlier transcript, as app/chat/page.tsx:104-108 does | medium, not executed | AiChatPage.SubmitSendsPromptTwice | ChatPage.SubmitSendsPromptOnce |
| app/ai-chat/page.tsx:194-219 | `handleRegenerate` passes `messages.slice(0, i)`, which already ends with the user message before the restarted reply, and `streamChat` appends that prompt again | regenerating the reply to "hi" sends two user entries, both "hi" | the prompt is sent once after the transcript before it | medium, not executed | AiChatPage.RegenerateSendsPromptTwice | AiChatPage.CorrectedRegenerateSendsPromptOnce |
