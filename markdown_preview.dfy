/**
 * The README preview card (components/readme/markdown-preview.tsx): the Copy label, the
 * optional Regenerate button, and this renderer's own link and image variants.
 */
module MarkdownPreview {
  import opened Wrappers
  import opened Markdown

  const LinkClass: string := "text-blue-600"
  const AnchorClass: string := "text-blue-600 hover:underline"

  /** The preview's `a` component: a blocked link becomes a blue span holding only the
      children; any other link opens in a new tab with the underline-on-hover class. */
  function PreviewLink<C>(href: Option<string>, children: C): (r: LinkView<C>)
    ensures r.Span? <==> Blocked(href)
    ensures r.children == children
    ensures r.Span? ==> r.spanClass == Some(LinkClass)
    ensures r.Anchor? ==> r.href == href && r.target == NewTab && r.rel == NoOpener && r.anchorClass == Some(AnchorClass)
  {
    if Blocked(href) then Span(Some(LinkClass), children)
    else Anchor(href, NewTab, NoOpener, Some(AnchorClass), children)
  }

  /** The preview blocks the same links as the shared renderer and differs only in the
      classes it sets. */
  lemma PreviewLinkAgrees<C>(href: Option<string>, children: C)
    ensures var p, m := PreviewLink(href, children), RenderLink(href, children);
      p.Span? == m.Span? && p.children == m.children &&
      (p.Anchor? ==> p.href == m.href && p.target == m.target && p.rel == m.rel)
  {
  }

  /** The preview's `img` component: nothing for a string source with a dangerous scheme,
      otherwise the image with a non-string source dropped and `alt` passed through. */
  function PreviewImage(src: ImageSource, alt: Option<string>): (r: Option<ImageView>)
    ensures r.None? <==> SourceBlocked(src)
    ensures r.Some? ==> r.value == Img(SourceUrl(src), alt)
  {
    if SourceBlocked(src) then None else Some(Img(SourceUrl(src), alt))
  }

  /** Given a string source, the preview shows an image exactly when the shared renderer
      does, and the same one. */
  lemma PreviewImageAgrees(url: string, alt: Option<string>)
    ensures PreviewImage(StringSource(url), alt) == RenderImage(Some(url), alt)
  {
    SourceBlockedAgrees(StringSource(url));
  }

  /** The Copy button's label. */
  function CopyLabel(copied: Option<bool>): (r: string)
    ensures r == "Copied!" <==> copied == Some(true)
    ensures r == "Copy" <==> copied != Some(true)
  {
    if copied.GetOr(false) then "Copied!" else "Copy"
  }

  datatype RegenerateButton = RegenerateButton(disabled: bool)

  /** `onRegenerate && <Button disabled={!canRegenerate}>`: the button exists exactly when
      a handler is given, and is enabled only when `canRegenerate` is true. */
  function Regenerate(hasHandler: bool, canRegenerate: Option<bool>): (r: Option<RegenerateButton>)
    ensures r.Some? <==> hasHandler
    ensures r.Some? ==> (r.value.disabled <==> canRegenerate != Some(true))
  {
    if hasHandler then Some(RegenerateButton(!canRegenerate.GetOr(false))) else None
  }
}
