/**
 * The shared markdown renderer (components/ui/markdown.tsx): the code-language and
 * inline-code rules, the link and image sanitiser, the element blacklist, and the memo
 * test for one block.  The URL test and the blacklist are reused by the other renderers.
 */
module Markdown {
  import opened Wrappers
  import opened Text

  // ---------------------------------------------------------------------
  // The dangerous-URL test
  // ---------------------------------------------------------------------

  /** `url.startsWith("javascript:") || url.startsWith("data:") || url.startsWith("vbscript:")`,
      compared character by character, so case matters. */
  predicate IsDangerous(url: string) {
    StartsWith(url, "javascript:") || StartsWith(url, "data:") || StartsWith(url, "vbscript:")
  }

  /** `href && (...)`: a missing or empty URL is never blocked. */
  predicate Blocked(url: Option<string>) {
    url.Some? && url.value != "" && IsDangerous(url.value)
  }

  /** The empty string starts with none of the schemes, so the truthiness test adds nothing
      to the prefix test. */
  lemma BlockedIffDangerous(url: Option<string>)
    ensures Blocked(url) <==> url.Some? && IsDangerous(url.value)
  {
    if url == Some("") {
      assert !StartsWith("", "data:");
    }
  }

  /** The prefix test is case-sensitive and anchored at the first character: a URL that
      starts with anything but the lower-case first letter of a scheme (an upper-case
      `J`, a space, a tab) is never blocked, whatever follows. */
  lemma SchemeCaseMatters(url: string)
    requires url != [] && url[0] != 'j' && url[0] != 'd' && url[0] != 'v'
    ensures !IsDangerous(url)
  {
    assert "javascript:"[0] == 'j' && "data:"[0] == 'd' && "vbscript:"[0] == 'v';
  }

  // ---------------------------------------------------------------------
  // Links and images
  // ---------------------------------------------------------------------

  /** A rendered link: a plain span, or an anchor.  `C` stands for the children, passed
      through untouched; `className` is the class the component itself sets. */
  datatype LinkView<C> =
    | Span(spanClass: Option<string>, children: C)
    | Anchor(href: Option<string>, target: string, rel: string, anchorClass: Option<string>, children: C)

  const NewTab: string := "_blank"
  const NoOpener: string := "noopener noreferrer"

  /** The `a` component: a blocked URL becomes a span with the same children and no
      address; any other link opens in a new tab without access to its opener. */
  function RenderLink<C>(href: Option<string>, children: C): (r: LinkView<C>)
    ensures r.Span? <==> Blocked(href)
    ensures r.children == children
    ensures r.Span? ==> r.spanClass == None
    ensures r.Anchor? ==> r.href == href && r.target == NewTab && r.rel == NoOpener && r.anchorClass == None
  {
    if Blocked(href) then Span(None, children)
    else Anchor(href, NewTab, NoOpener, None, children)
  }

  /** Every anchor the component renders carries a URL that is missing or starts with none
      of the three schemes. */
  lemma AnchorsAreSafe<C>(href: Option<string>, children: C)
    ensures var r := RenderLink(href, children);
      r.Anchor? ==> r.href.None? || !IsDangerous(r.href.value)
  {
    BlockedIffDangerous(href);
  }

  /** A rendered image, with the `src` it is given. */
  datatype ImageView = Img(src: Option<string>, alt: Option<string>)

  /** The `img` component: nothing for a blocked source, otherwise the image as given. */
  function RenderImage(src: Option<string>, alt: Option<string>): (r: Option<ImageView>)
    ensures r.None? <==> Blocked(src)
    ensures r.Some? ==> r.value == Img(src, alt)
  {
    if Blocked(src) then None else Some(Img(src, alt))
  }

  /** Every image the component renders has a source that is missing or safe. */
  lemma ImagesAreSafe(src: Option<string>, alt: Option<string>)
    ensures var r := RenderImage(src, alt);
      r.Some? ==> r.value.src.None? || !IsDangerous(r.value.src.value)
  {
    BlockedIffDangerous(src);
  }

  /** The `src` the streaming renderers hand to their `img` component: it is typed loosely,
      so it may be absent, a string, or some other value. */
  datatype ImageSource = NoSource | StringSource(url: string) | OtherSource

  /** `typeof src === "string" && (...)`: only a string with a dangerous scheme is blocked. */
  predicate SourceBlocked(src: ImageSource) {
    src.StringSource? && IsDangerous(src.url)
  }

  /** `typeof src === "string" ? src : undefined`. */
  function SourceUrl(src: ImageSource): (r: Option<string>)
    ensures r.Some? <==> src.StringSource?
    ensures r.Some? ==> r.value == src.url
  {
    if src.StringSource? then Some(src.url) else None
  }

  /** On a string source the loosely typed test blocks exactly what `Blocked` blocks. */
  lemma SourceBlockedAgrees(src: ImageSource)
    ensures SourceBlocked(src) <==> Blocked(SourceUrl(src))
  {
    BlockedIffDangerous(SourceUrl(src));
  }

  // ---------------------------------------------------------------------
  // Code: extractLanguage and the inline test
  // ---------------------------------------------------------------------

  const PlainText: string := "plaintext"
  const LanguagePrefix: string := "language-"

  /** `/language-(\w+)/` matches at `p`: the prefix, then at least one word character. */
  predicate LanguageAt(s: string, p: int) {
    OccursAt(s, LanguagePrefix, p) && p + 9 < |s| && IsWordChar(s[p + 9])
  }

  /** The leftmost match at or after `from`. */
  function FirstLanguage(s: string, from: nat): (r: Option<nat>)
    requires from <= |s|
    ensures r.Some? ==> from <= r.value && LanguageAt(s, r.value)
    ensures forall q :: from <= q <= |s| && (r.None? || q < r.value) ==> !LanguageAt(s, q)
    decreases |s| - from
  {
    if LanguageAt(s, from) then Some(from)
    else if from == |s| then None
    else FirstLanguage(s, from + 1)
  }

  /** `extractLanguage`: `plaintext` without a class name, otherwise the word characters
      after the leftmost `language-` that has any, or `plaintext` when there is none.  A
      match yields a non-empty run of word characters. */
  function ExtractLanguage(className: Option<string>): (r: string)
    ensures className.None? || className == Some("") ==> r == PlainText
    ensures r == PlainText || (r != [] && forall k :: 0 <= k < |r| ==> IsWordChar(r[k]))
  {
    if className.None? || className.value == "" then PlainText
    else
      var s := className.value;
      match FirstLanguage(s, 0)
      case None => PlainText
      case Some(p) => s[p + 9..p + 9 + WordRun(s, p + 9)]
  }

  /** The language is the whole word run after the leftmost `language-` followed by a word
      character. */
  lemma ExtractLanguageIsLeftmost(s: string, p: nat)
    requires LanguageAt(s, p)
    requires forall q :: 0 <= q < p ==> !LanguageAt(s, q)
    ensures var n := WordRun(s, p + 9); ExtractLanguage(Some(s)) == s[p + 9..p + 9 + n]
  {
    assert FirstLanguage(s, 0) == Some(p);
  }

  /** Without a `language-` followed by a word character the language is `plaintext`. */
  lemma NoLanguageIsPlainText(s: string)
    requires forall q :: 0 <= q <= |s| ==> !LanguageAt(s, q)
    ensures ExtractLanguage(Some(s)) == PlainText
  {
  }

  /** The class `language-<tag>` that markdown gives a fenced block gives back its tag. */
  lemma ExtractLanguageOfTag(tag: string)
    requires tag != [] && forall k :: 0 <= k < |tag| ==> IsWordChar(tag[k])
    ensures ExtractLanguage(Some(LanguagePrefix + tag)) == tag
  {
    var s := LanguagePrefix + tag;
    assert s[..9] == LanguagePrefix;
    assert LanguageAt(s, 0);
    WordRunToEnd(s, 9);
    assert s[9..] == tag;
  }

  /** A run of word characters to the end of the string is the whole rest. */
  lemma {:induction false} WordRunToEnd(s: string, i: nat)
    requires i <= |s| && forall k :: i <= k < |s| ==> IsWordChar(s[k])
    ensures WordRun(s, i) == |s| - i
    decreases |s| - i
  {
    if i < |s| {
      WordRunToEnd(s, i + 1);
    }
  }

  /** The `isInline` test on the node's start and end lines; a missing line, and line 0,
      are falsy. */
  function IsInline(startLine: Option<int>, endLine: Option<int>): (r: bool)
    ensures r <==> startLine.None? || startLine == Some(0) || startLine == endLine
  {
    !(startLine.Some? && startLine.value != 0) || startLine == endLine
  }

  /** What the `code` component renders. */
  datatype CodeView = InlineCode(className: Option<string>, text: string) | CodeBlock(className: Option<string>, language: string, code: string)

  function RenderCode(className: Option<string>, text: string, startLine: Option<int>, endLine: Option<int>): (r: CodeView)
    ensures r.InlineCode? <==> IsInline(startLine, endLine)
    ensures r.className == className
    ensures r.CodeBlock? ==> r.language == ExtractLanguage(className) && r.code == text
    ensures r.InlineCode? ==> r.text == text
  {
    if IsInline(startLine, endLine) then InlineCode(className, text)
    else CodeBlock(className, ExtractLanguage(className), text)
  }

  /** Only code that spans several known lines becomes a highlighted block. */
  lemma BlocksSpanLines(className: Option<string>, text: string, startLine: Option<int>, endLine: Option<int>)
    requires RenderCode(className, text, startLine, endLine).CodeBlock?
    ensures startLine.Some? && startLine.value != 0 && startLine != endLine
  {
  }

  // ---------------------------------------------------------------------
  // disallowedElements with unwrapDisallowed = false
  // ---------------------------------------------------------------------

  const DisallowedTags: set<string> := {"script", "iframe", "object", "embed", "form", "input", "button"}

  /** The element tree the markdown becomes. */
  datatype Node = Element(tag: string, children: seq<Node>) | TextNode(text: string)

  /** No disallowed element anywhere in the forest. */
  predicate Allowed(nodes: seq<Node>)
    decreases nodes
  {
    forall i :: 0 <= i < |nodes| ==> NodeAllowed(nodes[i])
  }

  predicate NodeAllowed(n: Node)
    decreases n
  {
    match n
    case TextNode(_) => true
    case Element(tag, kids) => tag !in DisallowedTags && Allowed(kids)
  }

  /** A disallowed element is removed together with everything inside it; every other
      node stays, with its own children pruned the same way. */
  function Prune(nodes: seq<Node>): (r: seq<Node>)
    ensures Allowed(r)
    ensures |r| <= |nodes|
    decreases nodes
  {
    if nodes == [] then []
    else
      var rest := Prune(nodes[1..]);
      match nodes[0]
      case TextNode(_) => [nodes[0]] + rest
      case Element(tag, kids) =>
        if tag in DisallowedTags then rest
        else [Element(tag, Prune(kids))] + rest
  }

  /** A forest with no disallowed element passes through unchanged, so pruning twice is
      pruning once. */
  lemma {:induction false} PruneKeepsAllowed(nodes: seq<Node>)
    requires Allowed(nodes)
    ensures Prune(nodes) == nodes
    decreases nodes
  {
    if nodes != [] {
      assert NodeAllowed(nodes[0]);
      PruneKeepsAllowed(nodes[1..]);
      match nodes[0]
      case TextNode(_) =>
      case Element(tag, kids) =>
        PruneKeepsAllowed(kids);
    }
  }

  /** Pruning works sibling by sibling: removing one element keeps the siblings before and
      after it, each pruned on its own. */
  lemma {:induction false} PruneAppend(a: seq<Node>, b: seq<Node>)
    ensures Prune(a + b) == Prune(a) + Prune(b)
    decreases a
  {
    if a == [] {
      assert a + b == b;
    } else {
      assert (a + b)[0] == a[0];
      assert (a + b)[1..] == a[1..] + b;
      PruneAppend(a[1..], b);
    }
  }

  /** A forest made only of disallowed elements renders as nothing, whatever is inside. */
  lemma {:induction false} PruneDropsDisallowed(nodes: seq<Node>)
    requires forall i :: 0 <= i < |nodes| ==> nodes[i].Element? && nodes[i].tag in DisallowedTags
    ensures Prune(nodes) == []
    decreases nodes
  {
    if nodes != [] {
      PruneDropsDisallowed(nodes[1..]);
    }
  }

  // ---------------------------------------------------------------------
  // The memoised block
  // ---------------------------------------------------------------------

  /** The props of one memoised block: its markdown, and the component table, which the
      comparison ignores. */
  datatype BlockProps<Components> = BlockProps(content: string, components: Components)

  /** `propsAreEqual`: a block re-renders exactly when its markdown changes. */
  predicate PropsAreEqual<Components>(prev: BlockProps<Components>, next: BlockProps<Components>) {
    prev.content == next.content
  }

  /** The comparison is an equivalence, as `memo` needs, and a new component table alone
      never re-renders a block. */
  lemma PropsAreEqualIsEquivalence<Components>(a: BlockProps<Components>, b: BlockProps<Components>, c: BlockProps<Components>)
    ensures PropsAreEqual(a, a)
    ensures PropsAreEqual(a, b) ==> PropsAreEqual(b, a)
    ensures PropsAreEqual(a, b) && PropsAreEqual(b, c) ==> PropsAreEqual(a, c)
    ensures PropsAreEqual(a, BlockProps(a.content, b.components))
    ensures !PropsAreEqual(a, b) <==> a.content != b.content
  {
  }
}
