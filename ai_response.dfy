/**
 * The streamed assistant reply (components/chat/ai-response.tsx): the animation flag and
 * the loosely typed image rule; its `a` component is the shared `Markdown.RenderLink`.
 */
module AiResponse {
  import opened Wrappers
  import opened Markdown

  /** `isAnimating={isStreaming}`, with `isStreaming` defaulting to false. */
  function IsAnimating(isStreaming: Option<bool>): (r: bool)
    ensures r <==> isStreaming == Some(true)
  {
    isStreaming.GetOr(false)
  }

  /** The rendered image: the source only when it is a string, and `alt || ""`. */
  datatype StreamImage = StreamImage(src: Option<string>, alt: string)

  /** The `img` component: nothing for a string source with a dangerous scheme; any other
      image renders, with a non-string source dropped and a missing or empty `alt` made
      the empty string. */
  function RenderImage(src: ImageSource, alt: Option<string>): (r: Option<StreamImage>)
    ensures r.None? <==> SourceBlocked(src)
    ensures r.Some? ==> r.value.src == SourceUrl(src)
    ensures r.Some? ==> r.value.alt == alt.GetOr("")
  {
    if SourceBlocked(src) then None
    else Some(StreamImage(SourceUrl(src), if alt.Some? && alt.value != "" then alt.value else ""))
  }

  /** On string sources this renderer suppresses exactly the images the shared markdown
      renderer does, and every image it shows has a missing or safe source. */
  lemma ImageAgreesWithMarkdown(src: ImageSource, alt: Option<string>)
    ensures RenderImage(src, alt).None? <==> Markdown.RenderImage(SourceUrl(src), alt).None?
    ensures var r := RenderImage(src, alt); r.Some? ==> r.value.src.None? || !IsDangerous(r.value.src.value)
  {
    SourceBlockedAgrees(src);
  }
}
