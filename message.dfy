/**
 * The chat message primitives of components/ui/message.tsx: the row layout with its
 * optional avatar, the avatar's image-or-initial fallback, and the content box that is
 * either plain pre-wrapped text or sanitised markdown.
 */
module UiMessage {
  import opened Wrappers
  import Markdown

  /** `x || d` on an optional string: an absent or empty value gives `d`. */
  function OrElse(x: Option<string>, d: string): (r: string)
    ensures x.Some? && x.value != "" ==> r == x.value
    ensures x.None? || x == Some("") ==> r == d
  {
    if x.Some? && x.value != "" then x.value else d
  }

  // ---------------------------------------------------------------------
  // Message: where the avatar goes
  // ---------------------------------------------------------------------

  datatype Align = Start | End

  /** What the inner row holds: the avatar's box and the children. */
  datatype Slot = AvatarSlot | ChildrenSlot

  /** The row's children in document order: the avatar before the children when aligned to
      the start (the default), after them when aligned to the end, and absent without an
      avatar. */
  function DomOrder(align: Option<Align>, hasAvatar: bool): (r: seq<Slot>)
    ensures ChildrenSlot in r
    ensures AvatarSlot in r <==> hasAvatar
    ensures hasAvatar && align.GetOr(Start) == Start ==> r == [AvatarSlot, ChildrenSlot]
    ensures hasAvatar && align == Some(End) ==> r == [ChildrenSlot, AvatarSlot]
    ensures !hasAvatar ==> r == [ChildrenSlot]
  {
    var a := align.GetOr(Start);
    (if hasAvatar && a == Start then [AvatarSlot] else []) + [ChildrenSlot] +
    (if hasAvatar && a == End then [AvatarSlot] else [])
  }

  function Reverse(s: seq<Slot>): (r: seq<Slot>)
    ensures |r| == |s| && forall i :: 0 <= i < |s| ==> r[i] == s[|s| - 1 - i]
  {
    if s == [] then [] else Reverse(s[1..]) + [s[0]]
  }

  /** The order on screen, left to right: `flex-row` keeps the document order and
      `flex-row-reverse`, used for the end alignment, reverses it. */
  function DisplayOrder(align: Option<Align>, hasAvatar: bool): seq<Slot> {
    if align == Some(End) then Reverse(DomOrder(align, hasAvatar)) else DomOrder(align, hasAvatar)
  }

  /** As written the two reversals cancel: with an avatar the row shows it first, on the
      left, for both alignments. */
  lemma AvatarAlwaysOnTheLeft(align: Option<Align>)
    ensures DisplayOrder(align, true) == [AvatarSlot, ChildrenSlot]
  {
    if align == Some(End) {
      assert DomOrder(align, true) == [ChildrenSlot, AvatarSlot];
    }
  }

  /** The row with only one of the two reversals (document order, `flex-row` for both): the
      avatar sits on the message's outer side, left for the start alignment and right for
      the end alignment. */
  function CorrectedDisplayOrder(align: Option<Align>, hasAvatar: bool): (r: seq<Slot>)
    ensures |r| == if hasAvatar then 2 else 1
    ensures hasAvatar && align.GetOr(Start) == Start ==> r[0] == AvatarSlot && r[|r| - 1] == ChildrenSlot
    ensures hasAvatar && align == Some(End) ==> r[0] == ChildrenSlot && r[|r| - 1] == AvatarSlot
    ensures r == [ChildrenSlot] <==> !hasAvatar
  {
    DomOrder(align, hasAvatar)
  }

  // ---------------------------------------------------------------------
  // MessageAvatar
  // ---------------------------------------------------------------------

  /** The avatar: an image, or a span with the fallback's first character, which is
      `undefined`, so nothing, for an empty fallback. */
  datatype AvatarView = AvatarImage(src: string, alt: string) | Initial(letter: Option<char>)

  const Placeholder: string := "/placeholder.svg"

  function Avatar(src: Option<string>, fallback: string, alt: Option<string>): (r: AvatarView)
    ensures r.AvatarImage? <==> src.Some? && src.value != ""
    ensures r.AvatarImage? ==> r.src == src.value && r.alt == OrElse(alt, fallback)
    ensures r.Initial? ==> (r.letter.Some? <==> fallback != "")
    ensures r.Initial? && fallback != "" ==> r.letter == Some(fallback[0])
  {
    if src.Some? && src.value != "" then AvatarImage(OrElse(src, Placeholder), OrElse(alt, fallback))
    else Initial(if fallback == "" then None else Some(fallback[0]))
  }

  /** The `"/placeholder.svg"` default sits inside the branch where `src` is already truthy,
      so it is never used: an image always shows the given source. */
  lemma PlaceholderNeverShown(src: Option<string>, fallback: string, alt: Option<string>)
    requires src != Some(Placeholder)
    ensures var r := Avatar(src, fallback, alt); r.AvatarImage? ==> r.src != Placeholder
  {
  }

  // ---------------------------------------------------------------------
  // MessageContent
  // ---------------------------------------------------------------------

  /** The content box: pre-wrapped text, or markdown rendered with the shared link and image
      sanitiser and the element blacklist, disallowed elements being dropped rather than
      unwrapped. */
  datatype ContentView = PreWrap(text: string) | MarkdownContent(text: string, disallowed: set<string>, unwrapDisallowed: bool)

  function RenderContent(markdown: Option<bool>, text: string): (r: ContentView)
    ensures r.PreWrap? <==> markdown != Some(true)
    ensures r.text == text
    ensures r.MarkdownContent? ==> r.disallowed == Markdown.DisallowedTags && !r.unwrapDisallowed
  {
    if markdown.GetOr(false) then MarkdownContent(text, Markdown.DisallowedTags, false) else PreWrap(text)
  }

  /** In markdown mode the rendered tree is the parsed one with every blacklisted element
      and its contents removed, so none is left at any depth. */
  lemma MarkdownModeDropsDisallowed(tree: seq<Markdown.Node>)
    ensures Markdown.Allowed(Markdown.Prune(tree))
    ensures Markdown.Allowed(tree) ==> Markdown.Prune(tree) == tree
  {
    if Markdown.Allowed(tree) {
      Markdown.PruneKeepsAllowed(tree);
    }
  }
}
